/** Normalisation of the panel's rule list: the last rule of every tag survives, in list order. */
module Routes {
  import opened Model

  // ---------- what normalisation means ----------

  /** The rules that no later rule with the same tag overrides. */
  function Normalize(rs: seq<RouteRule>): (out: seq<RouteRule>)
    ensures Tags(out) == Tags(rs)
    ensures DistinctTags(out)
    ensures forall r | r in out :: r in rs
  {
    if rs == [] then []
    else
      assert rs == [rs[0]] + rs[1..];
      TagsCons(rs[0], rs[1..]);
      if rs[0].tag in Tags(rs[1..]) then Normalize(rs[1..])
      else
        TagsCons(rs[0], Normalize(rs[1..]));
        [rs[0]] + Normalize(rs[1..])
  }

  ghost predicate Repeats(rs: seq<RouteRule>, tag: string) {
    exists i, j | 0 <= i < j < |rs| :: rs[i].tag == tag && rs[j].tag == tag
  }

  ghost function RepeatedTags(rs: seq<RouteRule>): set<string> {
    set t | t in Tags(rs) && Repeats(rs, t)
  }

  ghost predicate IsSubsequence<T>(xs: seq<T>, ys: seq<T>) {
    || xs == []
    || (ys != [] && xs[0] == ys[0] && IsSubsequence(xs[1..], ys[1..]))
    || (ys != [] && IsSubsequence(xs, ys[1..]))
  }

  lemma Absorbed<V>(k: string, v: V, m: map<string, V>)
    requires k in m
    ensures map[k := v] + m == m
  {
  }

  lemma ByTagCons(r: RouteRule, rest: seq<RouteRule>)
    ensures ByTag([r] + rest) == map[r.tag := r] + ByTag(rest)
  {
    assert ([r] + rest)[1..] == rest;
  }

  /** Normalising does not change what the list means as a last-write-wins map. */
  lemma {:induction false} NormalizeKeepsMeaning(rs: seq<RouteRule>)
    ensures ByTag(Normalize(rs)) == ByTag(rs)
  {
    if rs != [] {
      assert rs == [rs[0]] + rs[1..];
      NormalizeKeepsMeaning(rs[1..]);
      ByTagCons(rs[0], rs[1..]);
      if rs[0].tag in Tags(rs[1..]) {
        Absorbed(rs[0].tag, rs[0], ByTag(rs[1..]));
      } else {
        ByTagCons(rs[0], Normalize(rs[1..]));
      }
      hide ByTag;
    }
  }

  lemma {:induction false} NormalizeIsSubsequence(rs: seq<RouteRule>)
    ensures IsSubsequence(Normalize(rs), rs)
  {
    if rs != [] {
      NormalizeIsSubsequence(rs[1..]);
      if rs[0].tag !in Tags(rs[1..]) {
        assert Normalize(rs)[1..] == Normalize(rs[1..]);
      }
    }
  }

  /** A list is its own normal form exactly when no tag repeats; so normalising twice is normalising once. */
  lemma {:induction false} NormalizeFixpoints(rs: seq<RouteRule>)
    ensures Normalize(rs) == rs <==> DistinctTags(rs)
    ensures Normalize(Normalize(rs)) == Normalize(rs)
    decreases rs, 1
  {
    if DistinctTags(rs) {
      DistinctIsNormal(rs);
    }
    DistinctIsNormal(Normalize(rs));
  }

  lemma {:induction false} DistinctIsNormal(rs: seq<RouteRule>)
    requires DistinctTags(rs)
    ensures Normalize(rs) == rs
  {
    if rs != [] {
      DistinctIsNormal(rs[1..]);
      assert rs[0].tag !in Tags(rs[1..]);
    }
  }

  // ---------- the order Go gives strings ----------

  predicate Less(a: string, b: string) {
    if b == [] then false
    else if a == [] then true
    else a[0] < b[0] || (a[0] == b[0] && Less(a[1..], b[1..]))
  }

  lemma {:induction false} LessTotal(a: string, b: string)
    ensures a == b || Less(a, b) || Less(b, a)
  {
    if a != [] && b != [] {
      LessTotal(a[1..], b[1..]);
      assert a == [a[0]] + a[1..] && b == [b[0]] + b[1..];
    }
  }

  lemma {:induction false} LessTransitive(a: string, b: string, c: string)
    requires Less(a, b) && Less(b, c)
    ensures Less(a, c)
  {
    if a != [] && a[0] == b[0] == c[0] {
      LessTransitive(a[1..], b[1..], c[1..]);
    }
  }

  /** The first character in which two strings differ decides; a proper prefix comes first. */
  lemma {:induction false} LessIff(a: string, b: string)
    ensures Less(a, b) <==> exists i: nat :: FirstDifference(a, b, i) && (i == |a| || a[i] < b[i])
    decreases a
  {
    if a != [] && b != [] && a[0] == b[0] {
      LessIff(a[1..], b[1..]);
      if i: nat :| FirstDifference(a, b, i) && (i == |a| || a[i] < b[i]) {
        DifferenceTail(a, b, i - 1);
      }
      if i: nat :| FirstDifference(a[1..], b[1..], i) && (i == |a[1..]| || a[1..][i] < b[1..][i]) {
        DifferenceTail(a, b, i);
      }
    } else if b != [] {
      assert FirstDifference(a, b, 0);
    }
  }

  ghost predicate FirstDifference(a: string, b: string, i: nat) {
    i <= |a| && i < |b| && a[..i] == b[..i] && (i < |a| ==> a[i] != b[i])
  }

  lemma DifferenceTail(a: string, b: string, i: nat)
    requires a != [] && b != [] && a[0] == b[0]
    ensures FirstDifference(a, b, i + 1) <==> FirstDifference(a[1..], b[1..], i)
  {
    if i < |a| && i + 1 < |b| {
      assert a[..i + 1] == [a[0]] + a[1..][..i] && b[..i + 1] == [b[0]] + b[1..][..i];
      assert a[1..][..i] == a[..i + 1][1..] && b[1..][..i] == b[..i + 1][1..];
    }
  }

  predicate StrictlySorted(xs: seq<string>) {
    forall i, j | 0 <= i < j < |xs| :: Less(xs[i], xs[j])
  }

  /** Lists a set of tags in increasing order. */
  method SortTags(tags: set<string>) returns (sorted: seq<string>)
    ensures StrictlySorted(sorted)
    ensures forall t :: t in sorted <==> t in tags
  {
    sorted := [];
    var todo := tags;
    while todo != {}
      invariant StrictlySorted(sorted) && todo <= tags
      invariant forall t :: t in sorted <==> t in tags - todo
      decreases todo
    {
      var t :| t in todo;
      sorted := Insert(t, sorted);
      todo := todo - {t};
    }
  }

  method Insert(t: string, xs: seq<string>) returns (ys: seq<string>)
    requires StrictlySorted(xs) && t !in xs
    ensures StrictlySorted(ys)
    ensures forall u :: u in ys <==> u == t || u in xs
  {
    var i := 0;
    while i < |xs| && Less(xs[i], t)
      invariant 0 <= i <= |xs|
      invariant forall k | 0 <= k < i :: Less(xs[k], t)
    {
      i := i + 1;
    }
    forall k | i <= k < |xs| ensures Less(t, xs[k]) {
      LessTotal(t, xs[i]);
      if i < k {
        LessTransitive(t, xs[i], xs[k]);
      }
    }
    ys := xs[..i] + [t] + xs[i..];
    assert forall u :: u in xs <==> u in xs[..i] || u in xs[i..];
  }

  // ---------- the two loops of the source ----------

  /** The surviving rules in list order, and the repeated tags in increasing order. */
  method NormalizeRouteRules(routes: seq<RouteRule>) returns (normalized: seq<RouteRule>, duplicates: seq<string>)
    ensures normalized == Normalize(routes)
    ensures StrictlySorted(duplicates)
    ensures forall t :: t in duplicates <==> Repeats(routes, t)
  {
    if |routes| == 0 {
      return [], [];
    }
    var lastIndex, duplicateTags := IndexTags(routes);
    normalized := [];
    for index := 0 to |routes|
      invariant normalized + Normalize(routes[index..]) == Normalize(routes)
    {
      var route := routes[index];
      NormalizeStep(normalized, lastIndex, routes, index);
      if lastIndex[route.tag] == index {
        normalized := normalized + [route];
      }
    }
    duplicates := SortTags(duplicateTags);
  }

  /** The position of the last rule of every tag, and the tags seen more than once. */
  method IndexTags(routes: seq<RouteRule>) returns (lastIndex: map<string, nat>, duplicateTags: set<string>)
    ensures IsLastIndex(lastIndex, routes)
    ensures duplicateTags == RepeatedTags(routes)
  {
    lastIndex, duplicateTags := map[], {};
    for index := 0 to |routes|
      invariant IsLastIndex(lastIndex, routes[..index])
      invariant duplicateTags == RepeatedTags(routes[..index])
    {
      var route := routes[index];
      ghost var seen := routes[..index];
      assert routes[..index + 1] == seen + [route];
      ExtendRepeats(seen, route);
      ExtendLastIndex(lastIndex, seen, route);
      if route.tag in lastIndex {
        duplicateTags := duplicateTags + {route.tag};
      }
      lastIndex := lastIndex[route.tag := index];
    }
    assert routes[..|routes|] == routes;
  }

  ghost predicate IsLastIndex(m: map<string, nat>, rs: seq<RouteRule>) {
    && m.Keys == Tags(rs)
    && forall t | t in m :: m[t] < |rs| && rs[m[t]].tag == t && forall j | m[t] < j < |rs| :: rs[j].tag != t
  }

  lemma ExtendTags(seen: seq<RouteRule>, r: RouteRule)
    ensures Tags(seen + [r]) == Tags(seen) + {r.tag}
  {
    assert forall x :: x in seen + [r] <==> x in seen || x == r;
  }

  lemma ExtendLastIndex(m: map<string, nat>, seen: seq<RouteRule>, r: RouteRule)
    requires IsLastIndex(m, seen)
    ensures IsLastIndex(m[r.tag := |seen|], seen + [r])
  {
    var next := seen + [r];
    ExtendTags(seen, r);
    hide Tags;
    forall t | t in m && t != r.tag
      ensures next[m[t]].tag == t && forall j | m[t] < j < |next| :: next[j].tag != t
    {
      assert forall j | m[t] < j < |seen| :: next[j] == seen[j];
    }
  }

  lemma SurvivesIfLast(m: map<string, nat>, rs: seq<RouteRule>, i: nat)
    requires IsLastIndex(m, rs) && i < |rs|
    ensures rs[i].tag in m
    ensures Normalize(rs[i..]) == (if m[rs[i].tag] == i then [rs[i]] else []) + Normalize(rs[i + 1..])
  {
    var rest := rs[i + 1..];
    assert rs[i..][1..] == rest;
    assert rs[i] in rs;
    var last := m[rs[i].tag];
    if i < last {
      assert rest[last - i - 1] == rs[last];
    } else {
      assert forall j | i < j < |rs| :: rest[j - i - 1] == rs[j];
    }
  }

  lemma NormalizeStep(done: seq<RouteRule>, m: map<string, nat>, rs: seq<RouteRule>, i: nat)
    requires IsLastIndex(m, rs) && i < |rs|
    ensures rs[i].tag in m
    ensures done + Normalize(rs[i..])
         == (if m[rs[i].tag] == i then done + [rs[i]] else done) + Normalize(rs[i + 1..])
  {
    hide Normalize;
    SurvivesIfLast(m, rs, i);
    assert done + ([rs[i]] + Normalize(rs[i + 1..])) == (done + [rs[i]]) + Normalize(rs[i + 1..]);
  }

  lemma ExtendRepeats(seen: seq<RouteRule>, r: RouteRule)
    ensures RepeatedTags(seen + [r]) == RepeatedTags(seen) + if r.tag in Tags(seen) then {r.tag} else {}
  {
    var next := seen + [r];
    forall t
      ensures Repeats(next, t) <==> Repeats(seen, t) || (t == r.tag && t in Tags(seen))
    {
      if Repeats(seen, t) {
        var i, j :| 0 <= i < j < |seen| && seen[i].tag == t && seen[j].tag == t;
        assert next[i].tag == t && next[j].tag == t;
      }
      if t == r.tag && t in Tags(seen) {
        var i :| 0 <= i < |seen| && seen[i].tag == t;
        assert next[i].tag == t && next[|seen|].tag == t;
      }
    }
    assert forall x :: x in next <==> x in seen || x == r;
  }
}
