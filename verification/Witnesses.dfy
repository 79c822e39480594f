/** Families of inputs on which a guarantee fails; its exact condition is proved where the guarantee is. */
module Witnesses {
  import opened Model
  import opened Routes
  import opened Runtime
  import opened Diff
  import opened Apply
  import opened Batch
  import opened Drift
  import opened Reconciler
  import opened Runs
  import opened Limits
  import opened Usage

  /** Distinct addresses, diff: of two entries under one address, the difference adds the one that loses. */
  lemma RepeatedAddressAddsLoser(winner: Client, loser: Client)
    requires winner.email == loser.email && !EqualClient(winner, loser)
    ensures
      var current, desired := map[winner.email := winner], [loser, winner];
      && ByEmail(desired) == current
      && ClientAdds(current, desired) == [loser] && StaleEmails(current, desired) == {}
      && Updated(current, desired)[winner.email] == loser
  {
    var current, desired := map[winner.email := winner], [loser, winner];
    assert desired[1..] == [winner];
    assert [winner][1..] == [];
    assert ByEmail([winner]) == current && ClientAdds(current, [winner]) == [];
    assert ByEmail(desired) == current;
  }

  /** Distinct addresses, fast path: a repeated entry can stand in for one that has gone. */
  lemma RepeatedAddressHidesRemoval(kept: Client, gone: Client, rt: Runtime, version: int)
    requires kept.email != gone.email
    ensures
      var w := World(version, map[kept.email := kept, gone.email := gone], map[], rt);
      var ds := PanelState(version, [kept, kept], []);
      && TakesFastPath(w, false, ds)
      && gone.email in StaleEmails(w.clients, ds.clients)
  {
    var m := map[kept.email := kept, gone.email := gone];
    assert m.Keys == {kept.email, gone.email};
    assert |m| == |m.Keys|;
    assert Emails([kept, kept]) == {kept.email};
  }

  /** One fixed desired state, retries: a panel that withdraws a client after the call that added it went
      unanswered gets a success, and the core serves that client all the same. */
  lemma ChangeOfMindLeavesStray(env: Env, tags: InboundTags, c: Client, version: int)
    requires ValidClient(tags, c) && Quiet(env, 0, 3)
    requires EventAt(env, 0).fate.Answered? && EventAt(env, 2).fate.Unanswered?
    ensures
      var w := World(-1, map[], map[], Runtime(map[], [], 0));
      var listed := Synchronize(false, Some(PanelState(version, [c], [])), [], []);
      var withdrawn := Synchronize(false, Some(PanelState(version + 1, [], [])), [], []);
      && NoDrift(tags, w) && LegalRun(env, tags, w, [listed, withdrawn]) && Succeeds(env, tags, w, [listed, withdrawn])
      && Stray(tags, After(env, tags, w, [listed, withdrawn]), KeyOf(tags, c))
  {
    var w := World(-1, map[], map[], Runtime(map[], [], 0));
    var first, second := PanelState(version, [c], []), PanelState(version + 1, [], []);
    var listed := Synchronize(false, Some(first), [], []);
    var withdrawn := Synchronize(false, Some(second), [], []);
    ListedOnce(env, tags, c, version);
    var w1 := Next(env, tags, w, listed);
    NothingListed(env, tags, w1, version + 1);
    assert [listed, withdrawn][1..] == [withdrawn] && [withdrawn][1..] == [];
    assert After(env, tags, w1, [withdrawn]) == Next(env, tags, w1, withdrawn);
    assert Legal(w, listed) && Legal(w1, withdrawn);
  }

  lemma PutUnanswered(env: Env, tags: InboundTags, rt: Runtime, c: Client)
    requires ValidClient(tags, c) && Quiet(env, rt.clock, rt.clock + 2)
    requires EventAt(env, rt.clock + 1).fate.Unanswered?
    ensures var (rt', err) := Exec(env, tags, rt, PutUser(c)); err.Some? && KeyOf(tags, c) in rt'.users
  {
  }

  lemma OnePut(c: Client)
    ensures ClientAdds(map[], [c]) == [c] && UserOps(map[], [c], []) == [PutUser(c)] + []
  {
    AllClientsMissing([c]);
    assert [c][1..] == [];
    assert PutUsers([c]) == [PutUser(c)] + PutUsers([]);
  }

  lemma ListedOnce(env: Env, tags: InboundTags, c: Client, version: int)
    requires ValidClient(tags, c) && Quiet(env, 0, 3)
    requires EventAt(env, 0).fate.Answered? && EventAt(env, 2).fate.Unanswered?
    ensures
      var w, ds := World(-1, map[], map[], Runtime(map[], [], 0)), PanelState(version, [c], []);
      var w1 := Sync(env, tags, w, false, Some(ds), [], []).0;
      && NoDrift(tags, w) && LegalSync(w, false, Some(ds), [], [])
      && w1.clients == map[] && w1.routes == map[] && KeyOf(tags, c) in w1.rt.users
  {
    var w := World(-1, map[], map[], Runtime(map[], [], 0));
    var ops, rt1 := UserOps(map[], [c], []), Attempt(env, w.rt).0;
    assert NoDrift(tags, w);
    OnePut(c);
    PutUnanswered(env, tags, rt1, c);
    RunStep(env, tags, rt1, PutUser(c), []);
    assert ApplyOps(env, tags, w.rt, ops) == Applied(Exec(env, tags, rt1, PutUser(c)).0, false,
                                                     Exec(env, tags, rt1, PutUser(c)).1);
    hide ApplyOps, Exec, Attempt, UserOps, RuleOps, NoDrift;
  }

  lemma NothingListed(env: Env, tags: InboundTags, w: World, version: int)
    requires w.clients == map[] && w.routes == map[]
    ensures
      var ds := PanelState(version, [], []);
      var (w', err) := Sync(env, tags, w, false, Some(ds), [], []);
      && LegalSync(w, false, Some(ds), [], []) && err.None?
      && w'.rt == w.rt && w'.clients == map[] && w'.routes == map[]
  {
    assert UserOps(map[], [], []) == [] && RuleOps(map[], [], []) == [];
  }

  /** Retries, a strict core: one lost answer is enough.  The removal of a client takes effect but goes unanswered,
      so the attempt fails, and no retry, nor any other response without that client, is ever applied. */
  lemma LostAnswerBlocks(env: Env, tags: InboundTags, c: Client, account: Account, version: int, retries: seq<Step>)
    requires ValidClient(tags, c) && BuildUser(c) == Some(account)
    requires Strict(env, 2) && NeverRestarts(env, 0)
    requires EventAt(env, 0).fate.Answered? && EventAt(env, 1).fate.Unanswered?
    requires
      var w := World(version, map[c.email := c], map[], Runtime(map[KeyOf(tags, c) := account], [], 0));
      var w1 := Sync(env, tags, w, false, Some(PanelState(version + 1, [], [])), [c.email], []).0;
      LegalRun(env, tags, w1, retries)
      && forall i | 0 <= i < |retries| :: retries[i].Synchronize? && Drops(retries[i], w.clients, c.email)
    ensures
      var w := World(version, map[c.email := c], map[], Runtime(map[KeyOf(tags, c) := account], [], 0));
      var (w1, err) := Sync(env, tags, w, false, Some(PanelState(version + 1, [], [])), [c.email], []);
      && NoDrift(tags, w) && LegalSync(w, false, Some(PanelState(version + 1, [], [])), [c.email], [])
      && err == Some(Unavailable) && LastApplied(env, tags, w1, retries).None?
  {
    var w := World(version, map[c.email := c], map[], Runtime(map[KeyOf(tags, c) := account], [], 0));
    var w1 := Sync(env, tags, w, false, Some(PanelState(version + 1, [], [])), [c.email], []).0;
    LostRemoval(env, tags, c, account, version);
    hide *;
    RemovalLivelock(env, tags, w1, c.email, retries);
  }

  lemma OneDrop(c: Client)
    ensures UserOps(map[c.email := c], [], [c.email]) == [DropUser(c)] + []
    ensures IsOrderOf([c.email], StaleEmails(map[c.email := c], []))
  {
    assert [c.email][1..] == [];
    assert Values(map[c.email := c], [c.email]) == [c];
    assert DropUsers([c]) == [DropUser(c)] + DropUsers([c][1..]);
  }

  lemma LostRemoval(env: Env, tags: InboundTags, c: Client, account: Account, version: int)
    requires ValidClient(tags, c) && BuildUser(c) == Some(account)
    requires Strict(env, 2) && NeverRestarts(env, 0)
    requires EventAt(env, 0).fate.Answered? && EventAt(env, 1).fate.Unanswered?
    ensures
      var w := World(version, map[c.email := c], map[], Runtime(map[KeyOf(tags, c) := account], [], 0));
      var (w1, err) := Sync(env, tags, w, false, Some(PanelState(version + 1, [], [])), [c.email], []);
      && NoDrift(tags, w) && LegalSync(w, false, Some(PanelState(version + 1, [], [])), [c.email], [])
      && err == Some(Unavailable) && w1.clients == w.clients && c.email in w1.clients && w1.clients[c.email] == c
      && KeyOf(tags, c) !in w1.rt.users
      && Strict(env, w1.rt.clock) && UserStaysAway(env, KeyOf(tags, c), w1.rt.clock)
  {
    var w := World(version, map[c.email := c], map[], Runtime(map[KeyOf(tags, c) := account], [], 0));
    var rt1 := Attempt(env, w.rt).0;
    OneDrop(c);
    RunStep(env, tags, rt1, DropUser(c), []);
    assert NoDrift(tags, w);
    assert [DropUser(c)] + [] != [] && RuleOps(map[], Normalize([]), []) == [];
    hide UserOps, RuleOps, NoDrift, RunOps, StaleEmails;
  }

  /** No restart meanwhile, resets: a restart in the middle of a reset empties the core of what was already
      added, and the reset reports success. */
  lemma RestartDuringReset(env: Env, tags: InboundTags, w: World, first: Client, second: Client, version: int)
    requires w.rt.clock == 0 && env.bootUsers == map[]
    requires ValidClient(tags, first) && ValidClient(tags, second) && first.email != second.email
    requires forall i | 0 <= i < 5 :: EventAt(env, i).fate.Answered? && (EventAt(env, i).restart <==> i == 3)
    ensures
      var (w', err) := Sync(env, tags, w, true, Some(PanelState(version, [first, second], [])), [], []);
      err.None? && first.email in w'.clients && w'.rt.users.Keys == {KeyOf(tags, second)}
  {
    var rt1 := Attempt(env, w.rt).0;
    var rt2 := Exec(env, tags, rt1, PutUser(first)).0;
    var rt3 := Exec(env, tags, rt2, PutUser(second)).0;
    var desired := [first, second];
    PutAnswered(env, tags, rt1, first);
    PutAnswered(env, tags, rt2, second);
    assert rt3.users.Keys == {KeyOf(tags, second)};
    TwoPuts(first, second);
    RunStep(env, tags, rt1, PutUser(first), [PutUser(second)] + []);
    RunStep(env, tags, rt2, PutUser(second), []);
    assert ApplyOps(env, tags, w.rt, UserOps(map[], desired, [])) == Applied(rt3, true, None);
    assert RuleOps(map[], Normalize([]), []) == [];
    assert ByEmail(desired).Keys == Emails(desired) && first in desired;
    hide Exec, Attempt, UserOps, RuleOps, ByEmail, RunOps;
  }

  lemma PutAnswered(env: Env, tags: InboundTags, rt: Runtime, c: Client)
    requires ValidClient(tags, c) && !EventAt(env, rt.clock + 1).restart
    requires EventAt(env, rt.clock).fate.Answered? && EventAt(env, rt.clock + 1).fate.Answered?
    ensures var (rt', err) := Exec(env, tags, rt, PutUser(c));
      && err.None? && rt'.clock == rt.clock + 2
      && rt'.users.Keys == (if EventAt(env, rt.clock).restart then env.bootUsers else rt.users).Keys + {KeyOf(tags, c)}
  {
  }

  lemma TwoPuts(first: Client, second: Client)
    ensures UserOps(map[], [first, second], []) == [PutUser(first)] + ([PutUser(second)] + [])
  {
    AllClientsMissing([first, second]);
    OnePut(second);
    assert [first, second][1..] == [second];
    assert PutUsers([first, second]) == [PutUser(first)] + PutUsers([second]);
  }

  /** Addresses distinct but for case, usage: two counters that share a snapshot are reported over and over
      without any traffic at all. */
  lemma FoldedAddressesOverReport(lower: string -> string, busy: string, idle: string, high: int, low: int)
    requires busy != idle && lower(busy) == lower(idle) && 0 < low < high
    ensures
      var current := map[busy := Usage(high, 0), idle := Usage(low, 0)];
      var snapshot := map[lower(idle) := current[idle]];
      && IsOrderOf([busy, idle], current.Keys)
      && NormalizeDeltas(lower, snapshot, current, [busy, idle])
           == (snapshot, map[busy := Usage(high - low, 0), idle := Usage(low, 0)])
  {
    var current := map[busy := Usage(high, 0), idle := Usage(low, 0)];
    var key, snapshot := lower(idle), map[lower(idle) := current[idle]];
    var one, both := map[busy := Usage(high - low, 0)], map[busy := Usage(high - low, 0), idle := Usage(low, 0)];
    var sampled := snapshot[key := current[busy]];
    assert [busy, idle][1..] == [idle] && [idle][1..] == [];
    assert SampleDelta(snapshot, key, current[busy]) == Usage(high - low, 0);
    assert SampleDelta(sampled, key, current[idle]) == Usage(low, 0);
    assert map[][busy := Usage(high - low, 0)] == one && one[idle := Usage(low, 0)] == both;
    assert sampled[key := current[idle]] == snapshot;
    assert Walk(lower, current, [idle], sampled, one) == (snapshot, both);
    assert Walk(lower, current, [busy, idle], snapshot, map[]) == (snapshot, both);
    assert idle in current && key in Present(lower, current.Keys);
    assert (map k | k in snapshot && k in Present(lower, current.Keys) :: snapshot[k]) == snapshot;
  }
}
