/**
 The full model sweep of controller/channel_model_sweep.go: test every served and every
 advertised model in groups under a run-wide budget, retry what stayed unresolved, then
 remove confirmed failures and adopt what passed. What a probe meets is an oracle.
 */
module Sweep {
  import opened NameLists

  datatype Verdict = Pass | Fail | Inconclusive | Temporary | Account

  /** The verdicts a retry pass looks at again. */
  predicate Unresolved(v: Verdict) {
    v.Inconclusive? || v.Temporary?
  }

  /** The verdicts that say nothing about the model. */
  predicate Unknown(v: Verdict) {
    Unresolved(v) || v.Account?
  }

  // ---------------------------------------------------------------- one model, many keys

  const ENABLED := 1

  predicate KeyEnabled(status: map<int, int>, i: int) {
    i in status ==> status[i] == ENABLED
  }

  /**
   One goroutine of testChannelModelGroup: whether the channel row was loaded and enabled, the
   first verdict, the key that gave it, and what the other keys would answer.
   */
  datatype Probing = Probing(loaded: bool, first: Verdict, multiKey: bool, keys: seq<string>, status: map<int, int>,
                             selected: string, key: nat -> Verdict, cancelled: nat -> bool)

  /** The keys a second opinion is asked from. */
  predicate Consulted(p: Probing, i: int)
    requires 0 <= i < |p.keys|
  {
    KeyEnabled(p.status, i) && p.keys[i] != p.selected
  }

  /** Every other enabled key fails too. */
  predicate OthersFail(p: Probing) {
    forall i :: 0 <= i < |p.keys| && Consulted(p, i) ==> p.key(i).Fail?
  }

  /** The verdict once the keys from i on were asked. */
  function OpinionFrom(p: Probing, i: nat, verdict: Verdict): Verdict
    requires i <= |p.keys|
    decreases |p.keys| - i
  {
    if i == |p.keys| then verdict
    else if !Consulted(p, i) then OpinionFrom(p, i + 1, verdict)
    else if p.cancelled(i) then Inconclusive
    else if p.key(i).Pass? then Pass
    else OpinionFrom(p, i + 1, if p.key(i).Fail? then verdict else p.key(i))
  }

  function Opinion(p: Probing): Verdict {
    if !p.loaded then Inconclusive
    else if p.first.Fail? && p.multiKey then OpinionFrom(p, 0, p.first)
    else p.first
  }

  /** The verdict for one model (testChannelModelGroup). */
  method ProbeModel(p: Probing) returns (verdict: Verdict)
    ensures verdict == Opinion(p)
  {
    verdict := Inconclusive;
    if p.loaded {
      verdict := p.first;
      if verdict.Fail? && p.multiKey {
        for i := 0 to |p.keys|
          invariant OpinionFrom(p, 0, p.first) == OpinionFrom(p, i, verdict)
        {
          if i in p.status && p.status[i] != ENABLED {
            continue;
          }
          if p.keys[i] == p.selected {
            continue;
          }
          if p.cancelled(i) {
            return Inconclusive;
          }
          var keyVerdict := p.key(i);
          if !keyVerdict.Fail? {
            verdict := keyVerdict;
          }
          if keyVerdict.Pass? {
            return;
          }
        }
      }
    }
  }

  lemma {:induction false} OpinionFromMeaning(p: Probing, i: nat, verdict: Verdict)
    requires i <= |p.keys| && !verdict.Pass?
    ensures OpinionFrom(p, i, verdict).Fail? ==>
              verdict.Fail? && forall k :: i <= k < |p.keys| && Consulted(p, k) ==> p.key(k).Fail?
    ensures (forall k :: i <= k < |p.keys| ==> !p.cancelled(k)) ==>
              && (OpinionFrom(p, i, verdict).Fail? <==>
                  verdict.Fail? && forall k :: i <= k < |p.keys| && Consulted(p, k) ==> p.key(k).Fail?)
              && (OpinionFrom(p, i, verdict).Pass? <==>
                  exists k :: i <= k < |p.keys| && Consulted(p, k) && p.key(k).Pass?)
    decreases |p.keys| - i
  {
    if i < |p.keys| && !(Consulted(p, i) && (p.cancelled(i) || p.key(i).Pass?)) {
      OpinionFromMeaning(p, i + 1, if !Consulted(p, i) || p.key(i).Fail? then verdict else p.key(i));
    }
  }

  /**
   On a multi-key channel a failure of the selected key stands only if every other enabled key
   fails too; uncancelled, exactly then, and one key that passes is enough for a pass.
   */
  lemma OpinionMeaning(p: Probing)
    ensures !p.loaded ==> Opinion(p) == Inconclusive
    ensures p.loaded && !(p.first.Fail? && p.multiKey) ==> Opinion(p) == p.first
    ensures Opinion(p).Fail? ==> p.loaded && p.first.Fail? && (p.multiKey ==> OthersFail(p))
    ensures p.loaded && p.first.Fail? && p.multiKey && (forall i :: 0 <= i < |p.keys| ==> !p.cancelled(i)) ==>
              && (Opinion(p).Fail? <==> OthersFail(p))
              && (Opinion(p).Pass? <==> exists i :: 0 <= i < |p.keys| && Consulted(p, i) && p.key(i).Pass?)
  {
    if p.first.Fail? {
      OpinionFromMeaning(p, 0, p.first);
    }
  }

  /** What each probing of a model in a round meets. */
  type World = (nat, string) -> Probing

  function Probed(world: World, round: nat, name: string): Verdict {
    Opinion(world(round, name))
  }

  /** In some round every enabled key failed for the model. */
  predicate EveryKeyFailed(world: World, name: string) {
    exists r :: 0 <= r < 3 && FailsEverywhere(world(r, name))
  }

  predicate FailsEverywhere(p: Probing) {
    p.loaded && p.first.Fail? && (p.multiKey ==> OthersFail(p))
  }

  /** The upstream id a probe is sent under, and the name the model is served under. */
  datatype Item = Item(testName: string, adoptName: string)

  function AdoptNames(items: seq<Item>): (names: seq<string>)
    ensures |names| == |items|
    ensures forall i :: 0 <= i < |names| ==> names[i] == items[i].adoptName
  {
    seq(|items|, i requires 0 <= i < |items| => items[i].adoptName)
  }

  /** Only a new model is probed under the upstream id it was stripped from. */
  function TestName(name: string, isNew: bool, pending: map<string, string>): string {
    if isNew && name in pending && pending[name] != "" then pending[name] else name
  }

  function ItemOf(name: string, isNew: bool, pending: map<string, string>): Item {
    Item(TestName(name, isNew, pending), name)
  }

  /** The items for names that are all served, or all new. */
  method ItemsFor(names: seq<string>, isNew: bool, pending: map<string, string>) returns (items: seq<Item>)
    ensures |items| == |names| && forall i :: 0 <= i < |names| ==> items[i] == ItemOf(names[i], isNew, pending)
  {
    items := [];
    for i := 0 to |names|
      invariant |items| == i && forall k :: 0 <= k < i ==> items[k] == ItemOf(names[k], isNew, pending)
    {
      items := items + [ItemOf(names[i], isNew, pending)];
    }
  }

  /** The candidates the channel does not serve yet. */
  method NewNames(candidates: seq<string>, existing: seq<string>) returns (added: seq<string>)
    ensures added == Drop(candidates, Names(existing))
  {
    added := [];
    for i := 0 to |candidates|
      invariant added == Drop(candidates[..i], Names(existing))
    {
      assert candidates[..i + 1] == candidates[..i] + [candidates[i]];
      DropPush(candidates[..i], candidates[i], Names(existing));
      if candidates[i] !in existing {
        added := added + [candidates[i]];
      }
    }
    assert candidates[..|candidates|] == candidates;
  }

  method BuildItems(existing: seq<string>, candidates: seq<string>, pending: map<string, string>)
    returns (items: seq<Item>)
    requires Clean(existing) && Clean(candidates)
    ensures AdoptNames(items) == existing + Drop(candidates, Names(existing))
    ensures Distinct(AdoptNames(items))
    ensures forall i :: 0 <= i < |items| ==> items[i].testName == TestName(items[i].adoptName, i >= |existing|, pending)
  {
    var added := NewNames(candidates, existing);
    var served := ItemsFor(existing, false, pending);
    var newItems := ItemsFor(added, true, pending);
    items := served + newItems;
    DropNames(candidates, Names(existing));
    ConcatDistinct(existing, added);
    assert AdoptNames(items) == existing + added;
  }

  // ---------------------------------------------------------------- the passes

  /** The verdicts of a group in a given round. */
  function GroupVerdicts(names: seq<string>, round: nat, world: World): map<string, Verdict> {
    map name | name in names :: Probed(world, round, name)
  }

  function Min(a: int, b: int): int {
    if a < b then a else b
  }

  function Affordable(n: nat, budget: int): nat {
    if budget <= 0 then 0 else Min(n, budget)
  }

  /** The context at the t-th look: once it is done it stays done. */
  ghost predicate Lasting(live: nat -> bool) {
    forall s, t :: s <= t && live(t) ==> live(s)
  }

  /**
   The grouped first pass. Unless it finds the context done, it tests exactly the first
   min(items, budget) items, whatever the group size, and pays for each once.
   */
  method FirstPass(names: seq<string>, groupSize: int, budget: int, world: World, live: nat -> bool)
    returns (verdicts: map<string, Verdict>, left: int, log: seq<string>, looks: nat)
    requires Distinct(names) && groupSize >= 1
    ensures verdicts == GroupVerdicts(log, 0, world)
    ensures log <= names && left + |log| == budget
    ensures budget >= 0 ==> left >= 0
    ensures |log| == Affordable(|names|, budget) || (looks > 0 && !live(looks - 1))
  {
    verdicts, left, log, looks := map[], budget, [], 0;
    var start := 0;
    while start < |names|
      invariant 0 <= start
      invariant log == names[..Min(start, |names|)] || (left <= 0 && log <= names)
      invariant verdicts == GroupVerdicts(log, 0, world)
      invariant log <= names && left + |log| == budget && (budget >= 0 ==> left >= 0)
      invariant left <= 0 ==> |log| == Affordable(|names|, budget)
    {
      looks := looks + 1;
      if !live(looks - 1) {
        break;
      }
      if left <= 0 {
        break;
      }
      var end := start + groupSize;
      if end > |names| {
        end := |names|;
      }
      if end - start > left {
        end := start + left;
      }
      var group := names[start..end];
      SliceDistinct(names, start, end);
      assert names[..start] + group == names[..end];
      verdicts, left := MergeGroup(names[..start], group, verdicts, left, world);
      log := log + group;
      start := start + groupSize;
    }
  }

  lemma SliceDistinct(names: seq<string>, a: int, b: int)
    requires Distinct(names) && 0 <= a <= b <= |names|
    ensures Distinct(names[a..b])
  {
    var s := names[a..b];
    forall i, j | 0 <= i < j < |s|
      ensures s[i] != s[j]
    {
      assert s[i] == names[a + i] && s[j] == names[a + j];
    }
  }

  /** testChannelModelGroup; the order of its goroutines does not matter */
  method TestGroup(group: seq<string>, round: nat, world: World) returns (verdicts: map<string, Verdict>)
    ensures verdicts == GroupVerdicts(group, round, world)
  {
    verdicts := map[];
    for i := 0 to |group|
      invariant verdicts == GroupVerdicts(group[..i], round, world)
    {
      assert group[..i + 1] == group[..i] + [group[i]];
      var verdict := ProbeModel(world(round, group[i]));
      verdicts := verdicts[group[i] := verdict];
    }
    assert group[..|group|] == group;
  }

  /** One group's verdicts enter the map and each costs one from the budget. */
  method MergeGroup(ghost done: seq<string>, group: seq<string>, verdicts: map<string, Verdict>, budget: int,
                    world: World)
    returns (verdicts': map<string, Verdict>, left: int)
    requires Distinct(group) && verdicts == GroupVerdicts(done, 0, world)
    ensures verdicts' == GroupVerdicts(done + group, 0, world)
    ensures left == budget - |group|
  {
    var results := TestGroup(group, 0, world);
    verdicts', left := EnterResults(verdicts, results, budget);
    GroupNames(group, world);
    GroupConcat(done, group, world);
  }

  lemma GroupNames(group: seq<string>, world: World)
    requires Distinct(group)
    ensures |GroupVerdicts(group, 0, world).Keys| == |group|
  {
    assert GroupVerdicts(group, 0, world).Keys == Names(group);
    DistinctCount(group);
  }

  lemma GroupConcat(done: seq<string>, group: seq<string>, world: World)
    ensures GroupVerdicts(done, 0, world) + GroupVerdicts(group, 0, world) == GroupVerdicts(done + group, 0, world)
  {}

  function Rest(results: map<string, Verdict>, todo: set<string>): map<string, Verdict> {
    map n | n in todo && n in results :: results[n]
  }

  lemma RestEnds(verdicts: map<string, Verdict>, results: map<string, Verdict>)
    ensures verdicts + Rest(results, results.Keys) == verdicts + results
    ensures verdicts + Rest(results, {}) == verdicts
  {}

  lemma RestStep(verdicts: map<string, Verdict>, results: map<string, Verdict>, todo: set<string>, name: string)
    requires name in todo && name in results
    ensures verdicts[name := results[name]] + Rest(results, todo - {name}) == verdicts + Rest(results, todo)
    ensures |todo - {name}| == |todo| - 1
  {}

  /** The loop over a group's results, in whatever order the map yields them. */
  method EnterResults(verdicts: map<string, Verdict>, results: map<string, Verdict>, budget: int)
    returns (verdicts': map<string, Verdict>, left: int)
    ensures verdicts' == verdicts + results && left == budget - |results.Keys|
  {
    verdicts', left := verdicts, budget;
    var todo := results.Keys;
    RestEnds(verdicts, results);
    while todo != {}
      invariant todo <= results.Keys && left == budget - |results.Keys| + |todo|
      invariant verdicts' + Rest(results, todo) == verdicts + results
      decreases |todo|
    {
      var name :| name in todo;
      RestStep(verdicts', results, todo, name);
      verdicts' := verdicts'[name := results[name]];
      left := left - 1;
      todo := todo - {name};
    }
    RestEnds(verdicts', results);
  }

  /** What one retry pass does: only unresolved verdicts are tested again, each at most once. */
  ghost predicate Retested(before: map<string, Verdict>, after: map<string, Verdict>, log: seq<string>, round: nat,
                           world: World)
  {
    && after.Keys == before.Keys && Distinct(log)
    && (forall n :: n in log ==> n in before && Unresolved(before[n]) && after[n] == Probed(world, round, n))
    && (forall n :: n in before && n !in log ==> after[n] == before[n])
  }

  /** Nothing unresolved was passed over. */
  predicate Thorough(before: map<string, Verdict>, log: seq<string>) {
    forall n :: n in before && Unresolved(before[n]) ==> n in log
  }

  /** One serial retry pass; it is thorough unless the budget runs out or the context is done. */
  method RetryPass(names: seq<string>, verdicts: map<string, Verdict>, budget: int, round: nat,
                   world: World, live: nat -> bool, start: nat)
    returns (verdicts': map<string, Verdict>, left: int, log: seq<string>, returned: bool, looks: nat)
    requires Distinct(names) && verdicts.Keys <= Names(names)
    ensures Retested(verdicts, verdicts', log, round, world)
    ensures left + |log| == budget && (budget >= 0 ==> left >= 0)
    ensures looks >= start &&
            ((!returned && (left > 0 ==> Thorough(verdicts, log))) || (looks > start && !live(looks - 1)))
  {
    verdicts', left, log, returned, looks := verdicts, budget, [], false, start;
    for i := 0 to |names|
      invariant verdicts'.Keys == verdicts.Keys && looks >= start
      invariant Distinct(log) && left + |log| == budget && (budget >= 0 ==> left >= 0)
      invariant forall n :: n in log ==>
                n in names[..i] && n in verdicts && Unresolved(verdicts[n]) && verdicts'[n] == Probed(world, round, n)
      invariant forall n :: n in verdicts && n !in log ==> verdicts'[n] == verdicts[n]
      invariant forall k :: 0 <= k < i && names[k] in verdicts && Unresolved(verdicts[names[k]]) ==> names[k] in log
    {
      var name := names[i];
      assert name !in names[..i];
      if name !in verdicts' || !Unresolved(verdicts'[name]) {
        continue;
      }
      if left <= 0 {
        break;
      }
      looks := looks + 1;
      if !live(looks - 1) {
        break;
      }
      looks := looks + 1;
      if !live(looks - 1) {
        returned := true;
        return;
      }
      var verdict := ProbeModel(world(round, name));
      verdicts' := verdicts'[name := verdict];
      left := left - 1;
      log := log + [name];
    }
  }

  /** The verdict a sweep settles on when nothing cuts it short: the first world that resolves, else the third. */
  function Resolved(world: World, name: string): Verdict {
    if !Unresolved(Probed(world, 0, name)) then Probed(world, 0, name)
    else if !Unresolved(Probed(world, 1, name)) then Probed(world, 1, name)
    else Probed(world, 2, name)
  }

  /**
   What the passes do to one model: a resolved verdict is never tested again nor overwritten,
   an unresolved one is tested at most twice more, and the final verdict is that of a world.
   */
  predicate PassedOver(first: map<string, Verdict>, final: map<string, Verdict>, log: seq<string>, world: World,
                       n: string)
    requires n in first && n in final
  {
    && first[n] == Probed(world, 0, n) && final[n] in {Probed(world, 0, n), Probed(world, 1, n), Probed(world, 2, n)}
    && 1 <= multiset(log)[n] <= 3
    && (!Unresolved(first[n]) ==> final[n] == first[n] && multiset(log)[n] == 1)
  }

  predicate AllPassedOver(first: map<string, Verdict>, final: map<string, Verdict>, log: seq<string>, world: World) {
    final.Keys == first.Keys && forall n :: n in first ==> PassedOver(first, final, log, world, n)
  }

  lemma PassesCount(firstLog: seq<string>, first: map<string, Verdict>, second: map<string, Verdict>,
                    third: map<string, Verdict>, more: seq<string>, last: seq<string>, world: World)
    requires Distinct(firstLog) && first == GroupVerdicts(firstLog, 0, world)
    requires Retested(first, second, more, 1, world) && Retested(second, third, last, 2, world)
    ensures AllPassedOver(first, third, firstLog + more + last, world)
  {
    CountsDistinct(firstLog);
    CountsDistinct(more);
    CountsDistinct(last);
    forall n | n in first
      ensures PassedOver(first, third, firstLog + more + last, world, n)
    {
      assert multiset(firstLog + more + last)[n] == multiset(firstLog)[n] + multiset(more)[n] + multiset(last)[n];
    }
  }

  predicate AllResolved(final: map<string, Verdict>, world: World) {
    forall n :: n in final ==> final[n] == Resolved(world, n)
  }

  lemma PassesResolve(firstLog: seq<string>, first: map<string, Verdict>, second: map<string, Verdict>,
                      third: map<string, Verdict>, more: seq<string>, last: seq<string>, world: World)
    requires first == GroupVerdicts(firstLog, 0, world)
    requires Retested(first, second, more, 1, world) && Retested(second, third, last, 2, world)
    requires Thorough(first, more) && Thorough(second, last)
    ensures AllResolved(third, world)
  {
    forall n | n in third
      ensures third[n] == Resolved(world, n)
    {
      if n in more {
        assert second[n] == Probed(world, 1, n);
      }
      if n in last {
        assert third[n] == Probed(world, 2, n);
      }
    }
  }

  /** All three passes of a sweep, as a context that is still live at the end has let them run. */
  method RunPasses(names: seq<string>, groupSize: int, budget: int, world: World,
                   live: nat -> bool)
    returns (verdicts: map<string, Verdict>, left: int, first: map<string, Verdict>, log: seq<string>, returned: bool,
             looks: nat)
    requires Distinct(names) && groupSize >= 1 && Lasting(live)
    ensures left + |log| == budget && (budget >= 0 ==> 0 <= left <= budget)
    ensures first.Keys <= Names(names)
    ensures AllPassedOver(first, verdicts, log, world)
    ensures live(looks) ==> !returned && first == GroupVerdicts(names[..Affordable(|names|, budget)], 0, world)
    ensures live(looks) && left > 0 ==> first.Keys == Names(names) && AllResolved(verdicts, world)
  {
    var firstLog, second, more, last;
    first, left, firstLog, looks := FirstPass(names, groupSize, budget, world, live);
    FirstPassNames(names, firstLog, budget);
    second, verdicts, left, more, last, returned, looks := RetryTwice(names, first, left, world, live, looks);
    log := firstLog + more + last;
    PassesCount(firstLog, first, second, verdicts, more, last, world);
    if Thorough(first, more) && Thorough(second, last) {
      PassesResolve(firstLog, first, second, verdicts, more, last, world);
    }
  }

  lemma FirstPassNames(names: seq<string>, log: seq<string>, budget: int)
    requires Distinct(names) && log <= names
    ensures Distinct(log) && Names(log) <= Names(names)
    ensures |log| == Affordable(|names|, budget) ==> log == names[..Affordable(|names|, budget)]
    ensures |log| == Affordable(|names|, budget) && budget > |log| ==> log == names
  {
    assert log == names[..|log|];
    SliceDistinct(names, 0, |log|);
  }

  /** The two retry passes; a cancelled wait ends both. */
  method RetryTwice(names: seq<string>, first: map<string, Verdict>, budget: int, world: World, live: nat -> bool,
                    start: nat)
    returns (second: map<string, Verdict>, third: map<string, Verdict>, left: int, more: seq<string>, last: seq<string>,
             returned: bool, looks: nat)
    requires Distinct(names) && first.Keys <= Names(names) && Lasting(live)
    ensures Retested(first, second, more, 1, world) && Retested(second, third, last, 2, world)
    ensures left + |more| + |last| == budget && (budget >= 0 ==> left >= 0)
    ensures looks >= start &&
            (live(looks) ==> !returned && (left > 0 ==> Thorough(first, more) && Thorough(second, last)))
  {
    second, left, more, returned, looks := RetryPass(names, first, budget, 1, world, live, start);
    third, last := second, [];
    if !returned {
      third, left, last, returned, looks := RetryPass(names, second, left, 2, world, live, looks);
    }
  }

  lemma {:induction false} CountsDistinct(s: seq<string>)
    requires Distinct(s)
    ensures forall n :: multiset(s)[n] == if n in s then 1 else 0
  {
    if s != [] {
      var init, last := s[..|s| - 1], s[|s| - 1];
      assert s == init + [last];
      CountsDistinct(init);
      assert last !in init;
    }
  }

  // ---------------------------------------------------------------- deciding the next list

  function With(verdicts: map<string, Verdict>, v: Verdict): set<string> {
    set n | n in verdicts && verdicts[n] == v
  }

  method RemoveFailed(existing: seq<string>, verdicts: map<string, Verdict>)
    returns (kept: seq<string>, removed: seq<string>)
    ensures removed == Keep(existing, With(verdicts, Fail))
    ensures kept == Drop(existing, With(verdicts, Fail))
  {
    kept, removed := [], [];
    for i := 0 to |existing|
      invariant removed == Keep(existing[..i], With(verdicts, Fail))
      invariant kept == Drop(existing[..i], With(verdicts, Fail))
    {
      var m := existing[i];
      assert existing[..i + 1] == existing[..i] + [m];
      KeepPush(existing[..i], m, With(verdicts, Fail));
      DropPush(existing[..i], m, With(verdicts, Fail));
      if m in verdicts && verdicts[m].Fail? {
        removed := removed + [m];
        continue;
      }
      kept := kept + [m];
    }
    assert existing[..|existing|] == existing;
  }

  method AdoptPassing(names: seq<string>, verdicts: map<string, Verdict>) returns (added: seq<string>)
    ensures added == Keep(names, With(verdicts, Pass))
  {
    added := [];
    for i := 0 to |names|
      invariant added == Keep(names[..i], With(verdicts, Pass))
    {
      var m := names[i];
      assert names[..i + 1] == names[..i] + [m];
      KeepPush(names[..i], m, With(verdicts, Pass));
      if m in verdicts && verdicts[m].Pass? {
        added := added + [m];
      }
    }
    assert names[..|names|] == names;
  }

  /** computeSweptModels */
  method ComputeSwept(existingModels: seq<string>, candidateModels: seq<string>, verdicts: map<string, Verdict>)
    returns (next: seq<string>, added: seq<string>, removed: seq<string>)
    ensures removed == Keep(Normalize(existingModels), With(verdicts, Fail))
    ensures added == Keep(Drop(Normalize(candidateModels), Names(Normalize(existingModels))), With(verdicts, Pass))
    ensures next == Drop(Normalize(existingModels), With(verdicts, Fail)) + added
  {
    var existing, candidates := Normalize(existingModels), Normalize(candidateModels);
    var kept;
    kept, removed := RemoveFailed(existing, verdicts);
    var names := NewNames(candidates, existing);
    added := AdoptPassing(names, verdicts);
    next := kept + added;
  }

  /** The names the summary lists as unverified: never tested, or tested without an answer. */
  function Unverified(names: seq<string>, verdicts: map<string, Verdict>): seq<string> {
    Keep(names, set n | n in names && (n in verdicts ==> Unknown(verdicts[n])))
  }

  function Unanswered(verdicts: map<string, Verdict>): set<string> {
    set n | n in verdicts && Unknown(verdicts[n])
  }

  lemma OutcomePush(names: seq<string>, i: nat, verdicts: map<string, Verdict>, open: set<string>)
    requires i < |names|
    requires open == set n | n in names && (n in verdicts ==> Unknown(verdicts[n]))
    ensures var before, after, name := names[..i], names[..i + 1], names[i];
            && Names(after) == Names(before) + {name}
            && Keep(after, open) ==
               Keep(before, open) + (if name !in verdicts || Unknown(verdicts[name]) then [name] else [])
            && |Keep(after, Unanswered(verdicts))| ==
               |Keep(before, Unanswered(verdicts))| + (if name in verdicts && Unknown(verdicts[name]) then 1 else 0)
  {
    assert names[..i + 1] == names[..i] + [names[i]];
    KeepPush(names[..i], names[i], open);
    KeepPush(names[..i], names[i], Unanswered(verdicts));
  }

  /** The accounting after the passes. */
  method CountOutcome(names: seq<string>, verdicts: map<string, Verdict>)
    returns (unverified: seq<string>, incomplete: bool, inconclusive: nat)
    ensures unverified == Unverified(names, verdicts)
    ensures incomplete <==> exists n :: n in names && n !in verdicts
    ensures inconclusive == |Keep(names, Unanswered(verdicts))|
  {
    unverified, incomplete, inconclusive := [], false, 0;
    ghost var open := set n | n in names && (n in verdicts ==> Unknown(verdicts[n]));
    for i := 0 to |names|
      invariant unverified == Keep(names[..i], open)
      invariant incomplete <==> !(Names(names[..i]) <= verdicts.Keys)
      invariant inconclusive == |Keep(names[..i], Unanswered(verdicts))|
    {
      var name := names[i];
      OutcomePush(names, i, verdicts, open);
      if name !in verdicts || Unknown(verdicts[name]) {
        unverified := unverified + [name];
      }
      if name !in verdicts {
        incomplete := true;
      } else if Unknown(verdicts[name]) {
        inconclusive := inconclusive + 1;
      }
    }
    assert names[..|names|] == names;
    assert Names(names) <= verdicts.Keys <==> forall n :: n in names ==> n in verdicts;
  }

  /**
   A sweep removes a served model exactly on Fail and adopts a candidate exactly on Pass;
   removed, added and unverified names are pairwise disjoint, and every unverified
   served model is kept, in order.
   */
  predicate Outcome(existing: seq<string>, candidates: seq<string>, verdicts: map<string, Verdict>,
                    next: seq<string>, added: seq<string>, removed: seq<string>, unverified: seq<string>)
  {
    && Names(removed) == Names(existing) * With(verdicts, Fail)
    && Names(added) == (Names(candidates) - Names(existing)) * With(verdicts, Pass)
    && Clean(next) && Names(next) == (Names(existing) - Names(removed)) + Names(added)
    && Names(removed) !! Names(added) && Names(removed) !! Names(unverified) && Names(added) !! Names(unverified)
    && Keep(next, Names(unverified)) == Keep(existing, Names(unverified))
  }

  lemma SweepOutcome(existing: seq<string>, candidates: seq<string>, verdicts: map<string, Verdict>,
                     next: seq<string>, added: seq<string>, removed: seq<string>)
    requires Clean(existing) && Clean(candidates)
    requires removed == Keep(existing, With(verdicts, Fail))
    requires added == Keep(Drop(candidates, Names(existing)), With(verdicts, Pass))
    requires next == Drop(existing, With(verdicts, Fail)) + added
    ensures Outcome(existing, candidates, verdicts, next, added, removed,
                    Unverified(existing + Drop(candidates, Names(existing)), verdicts))
  {
    SweepNames(existing, candidates, verdicts, next, added, removed);
    UnverifiedKept(existing, candidates, verdicts, next, added);
  }

  lemma SweepNames(existing: seq<string>, candidates: seq<string>, verdicts: map<string, Verdict>,
                   next: seq<string>, added: seq<string>, removed: seq<string>)
    requires Clean(existing) && Clean(candidates)
    requires removed == Keep(existing, With(verdicts, Fail))
    requires added == Keep(Drop(candidates, Names(existing)), With(verdicts, Pass))
    requires next == Drop(existing, With(verdicts, Fail)) + added
    ensures Names(removed) == Names(existing) * With(verdicts, Fail)
    ensures Names(added) == (Names(candidates) - Names(existing)) * With(verdicts, Pass)
    ensures Clean(next) && Names(next) == (Names(existing) - Names(removed)) + Names(added)
  {
    var newNames, kept := Drop(candidates, Names(existing)), Drop(existing, With(verdicts, Fail));
    KeepNames(existing, With(verdicts, Fail));
    DropNames(candidates, Names(existing));
    KeepNames(newNames, With(verdicts, Pass));
    DropNames(existing, With(verdicts, Fail));
    KeepCleans(candidates, Names(candidates) - Names(existing));
    KeepCleans(newNames, With(verdicts, Pass));
    KeepCleans(existing, Names(existing) - With(verdicts, Fail));
    ConcatCleans(kept, added);
    ConcatDistinct(kept, added);
  }

  lemma UnverifiedKept(existing: seq<string>, candidates: seq<string>, verdicts: map<string, Verdict>,
                       next: seq<string>, added: seq<string>)
    requires Clean(existing) && Clean(candidates)
    requires added == Keep(Drop(candidates, Names(existing)), With(verdicts, Pass))
    requires next == Drop(existing, With(verdicts, Fail)) + added
    ensures var unverified := Unverified(existing + Drop(candidates, Names(existing)), verdicts);
            && Names(unverified) !! With(verdicts, Fail) && Names(unverified) !! With(verdicts, Pass)
            && Names(added) !! Names(unverified)
            && Keep(next, Names(unverified)) == Keep(existing, Names(unverified))
  {
    var names := existing + Drop(candidates, Names(existing));
    UnverifiedOpen(names, verdicts);
    KeepNames(Drop(candidates, Names(existing)), With(verdicts, Pass));
    KeptInOrder(existing, With(verdicts, Fail), added, Names(Unverified(names, verdicts)));
  }

  lemma UnverifiedOpen(names: seq<string>, verdicts: map<string, Verdict>)
    ensures Names(Unverified(names, verdicts)) !! With(verdicts, Fail)
    ensures Names(Unverified(names, verdicts)) !! With(verdicts, Pass)
  {
    KeepNames(names, set n | n in names && (n in verdicts ==> Unknown(verdicts[n])));
  }

  lemma KeptInOrder(existing: seq<string>, failed: set<string>, added: seq<string>, u: set<string>)
    requires u !! failed && Names(added) !! u
    ensures Keep(Drop(existing, failed) + added, u) == Keep(existing, u)
  {
    KeepConcat(Drop(existing, failed), added, u);
    KeepNone(added, u);
    KeepOfKeep(existing, Names(existing) - failed, u);
    KeepAgree(existing, (Names(existing) - failed) * u, u);
  }

  lemma {:induction false} KeepOfKeep(s: seq<string>, a: set<string>, b: set<string>)
    ensures Keep(Keep(s, a), b) == Keep(s, a * b)
  {
    if s != [] {
      KeepOfKeep(s[..|s| - 1], a, b);
      var init, last := Keep(s[..|s| - 1], a), s[|s| - 1];
      assert (init + [last])[..|init + [last]| - 1] == init;
    }
  }
}
