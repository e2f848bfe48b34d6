/**
 Model validation of controller/channel_upstream_update.go: requests for the
 models a run selected, failure counts per model, and the guards between a failed request
 and a removed model. Request outcomes, cancellation and what other workers do to
 the shared budget are oracles.
 */
module Validation {
  import opened NameLists
  import opened Selection
  import opened Text
  import opened UpstreamDiff

  /** A test result as the removal policy sees it: Fault is a channel fault or, where enabled, a missing model. */
  datatype Verdict = Success | Inconclusive | Fault

  /** What interrupts the loop before a request: nothing, a stop, or a cancelled wait. */
  datatype Stop = Go | Break | Return

  const MAX_HEALTH_ENTRIES := 200

  // ---------------------------------------------------------------- removal guards

  function FailingNames(health: map<string, Health>): set<string> {
    set m | m in health && health[m].failures > 0
  }

  /** shouldSuspendUpstreamModelRemovals: more than half of the served models are failing */
  predicate Suspended(existing: seq<string>, health: map<string, Health>) {
    var failing := |Keep(Normalize(existing), FailingNames(health))|;
    |health| > 0 && |existing| > 0 && failing > 0 && 2 * failing > |existing|
  }

  /** limitUpstreamModelRemovals */
  function Limited(existing: seq<string>, remove: seq<string>): seq<string> {
    var models, gone := Normalize(existing), Intersect(remove, Normalize(existing));
    if gone == [] || |gone| >= |models| || |gone| > |models| / 2 then [] else gone
  }

  /**
   Whenever the cumulative guard lets removals through, the per-run limiter returns
   them unchanged: at most half of the served models, and never all of them.
   */
  lemma LimiterNeverBinds(existing: seq<string>, health: map<string, Health>, remove: seq<string>)
    requires Clean(existing) && Clean(remove)
    requires Names(remove) <= Names(existing) * FailingNames(health)
    requires !Suspended(existing, health)
    ensures Limited(existing, remove) == remove
    ensures 2 * |remove| <= |existing|
    ensures existing != [] ==> |remove| < |existing|
  {
    NormalizeCleans(existing);
    NormalizeCleans(remove);
    KeepNames(remove, Names(existing));
    var failing := Keep(existing, FailingNames(health));
    KeepNames(existing, FailingNames(health));
    DistinctCount(failing);
    DistinctCount(remove);
    SubsetCount(Names(remove), Names(failing));
    if remove != [] {
      assert remove[0] in Names(remove);
      assert remove[0] in health;
      assert |health| > 0;
    }
  }

  /** limitUpstreamModelRemovals on any input: a sublist of at most half, or nothing. */
  lemma LimitedBound(existing: seq<string>, remove: seq<string>)
    ensures Clean(Limited(existing, remove))
    ensures Names(Limited(existing, remove)) <= Names(Normalize(existing))
    ensures 2 * |Limited(existing, remove)| <= |Normalize(existing)|
    ensures Normalize(existing) != [] ==> |Limited(existing, remove)| < |Normalize(existing)|
  {
    NormalizeCleans(existing);
    NormalizeCleans(Normalize(existing));
    NormalizeCleans(remove);
    KeepCleans(Normalize(remove), Names(Normalize(existing)));
    KeepNames(Normalize(remove), Names(Normalize(existing)));
  }

  // ---------------------------------------------------------------- recording results

  /** classifyModelValidationResult's effect on the health map */
  function Recorded(health: map<string, Health>, name: string, v: Verdict, served: bool, now: int)
    : map<string, Health>
  {
    match v
    case Success => health - {name}
    case Inconclusive => health
    case Fault =>
      if !served then health
      else health[name := Health((if name in health then health[name].failures else 0) + 1, now)]
  }

  /** classifyModelValidationResult's request to remove the model */
  predicate AsksRemoval(health: map<string, Health>, name: string, v: Verdict, served: bool, removeFailed: bool,
                        threshold: int)
  {
    v.Fault? && served && removeFailed && (if name in health then health[name].failures else 0) + 1 >= threshold
  }

  function AllRecorded(health: map<string, Health>, tested: seq<string>, probe: string -> Verdict,
                       existing: set<string>, now: int): map<string, Health>
  {
    if tested == [] then health
    else
      var name := tested[|tested| - 1];
      Recorded(AllRecorded(health, tested[..|tested| - 1], probe, existing, now), name, probe(name), name in existing,
               now)
  }

  /** A model's entry depends on its own result only. */
  lemma {:induction false} RecordedAt(health: map<string, Health>, tested: seq<string>, probe: string -> Verdict,
                                      existing: set<string>, now: int, name: string)
    requires Distinct(tested)
    ensures var after := AllRecorded(health, tested, probe, existing, now);
            && (name !in tested ==>
                  (name in after <==> name in health) && (name in after ==> after[name] == health[name]))
            && (name in tested ==>
                  var one := Recorded(health, name, probe(name), name in existing, now);
                  (name in after <==> name in one) && (name in after ==> after[name] == one[name]))
  {
    if tested != [] {
      var init, last := tested[..|tested| - 1], tested[|tested| - 1];
      assert tested == init + [last];
      RecordedAt(health, init, probe, existing, now, name);
      RecordedAt(health, init, probe, existing, now, last);
      assert last !in init;
    }
  }

  function Asking(health: map<string, Health>, tested: seq<string>, probe: string -> Verdict, existing: set<string>,
                  removeFailed: bool, threshold: int): set<string>
  {
    set m | m in tested && AsksRemoval(health, m, probe(m), m in existing, removeFailed, threshold)
  }

  function Passing(tested: seq<string>, probe: string -> Verdict, candidates: set<string>): set<string> {
    set m | m in tested && probe(m).Success? && m in candidates
  }

  function Rejecting(tested: seq<string>, probe: string -> Verdict, candidates: set<string>): set<string> {
    set m | m in tested && !probe(m).Success? && m in candidates
  }

  /** A model that asks for removal is on record as failing, whatever else was tested. */
  lemma AskingIsFailing(health: map<string, Health>, tested: seq<string>, probe: string -> Verdict,
                        existing: set<string>, now: int, removeFailed: bool, threshold: int)
    requires Distinct(tested) && threshold >= 1
    ensures Asking(health, tested, probe, existing, removeFailed, threshold) <=
            existing * FailingNames(AllRecorded(health, tested, probe, existing, now))
  {
    forall m | m in Asking(health, tested, probe, existing, removeFailed, threshold)
      ensures m in FailingNames(AllRecorded(health, tested, probe, existing, now))
    {
      RecordedAt(health, tested, probe, existing, now, m);
    }
  }

  // ---------------------------------------------------------------- pruning the health map

  function Known(health: map<string, Health>, known: set<string>): map<string, Health> {
    map m | m in health && m in known :: health[m]
  }

  /** What pruneChannelModelHealth may leave; ties in the failure time are broken by map order. */
  predicate Pruned(health: map<string, Health>, known: set<string>, after: map<string, Health>) {
    var kept := Known(health, known);
    && after.Keys <= kept.Keys
    && (forall m :: m in after ==> after[m] == health[m])
    && |after| <= MAX_HEALTH_ENTRIES
    && (|kept| <= MAX_HEALTH_ENTRIES ==> after == kept)
    && (|kept| > MAX_HEALTH_ENTRIES ==> |after| == MAX_HEALTH_ENTRIES)
    && (forall a, b :: a in after && b in kept && b !in after ==> kept[b].lastFailure <= after[a].lastFailure)
  }

  predicate Oldest(h: map<string, Health>, m: string) {
    m in h && forall o :: o in h ==> h[m].lastFailure <= h[o].lastFailure
  }

  lemma OldestExists(h: map<string, Health>)
    requires h != map[]
    ensures exists m :: Oldest(h, m)
    decreases |h|
  {
    var x :| x in h;
    var rest := h - {x};
    assert rest.Keys == h.Keys - {x};
    assert forall o :: o in h ==> o == x || o in rest;
    if rest == map[] {
      assert Oldest(h, x);
    } else {
      OldestExists(rest);
      var m :| Oldest(rest, m);
      assert Oldest(h, if h[x].lastFailure <= h[m].lastFailure then x else m);
    }
  }

  /** pruneChannelModelHealth */
  method Prune(health: map<string, Health>, known: set<string>) returns (after: map<string, Health>)
    ensures Pruned(health, known, after)
  {
    after := Known(health, known);
    ghost var kept := after;
    while |after| > MAX_HEALTH_ENTRIES
      invariant after.Keys <= kept.Keys && forall m :: m in after ==> after[m] == health[m]
      invariant |after| < |kept| ==> |after| >= MAX_HEALTH_ENTRIES
      invariant |after| == |kept| ==> after == kept
      invariant forall a, b :: a in after && b in kept && b !in after ==> kept[b].lastFailure <= after[a].lastFailure
      decreases |after|
    {
      OldestExists(after);
      var oldest :| Oldest(after, oldest);
      assert (after - {oldest}).Keys == after.Keys - {oldest};
      after := after - {oldest};
    }
    if |after| == |kept| {
    } else {
      assert |after| == MAX_HEALTH_ENTRIES;
    }
  }

  // ---------------------------------------------------------------- one validation run

  /** The settings a run reads; the getters never return a threshold below 1 or a negative sample. */
  datatype Policy = Policy(removeFailed: bool, threshold: int, delay: int, sample: int, candidatesOnly: bool)

  predicate Sane(policy: Policy) {
    policy.threshold >= 1 && policy.sample >= 0
  }

  /** upstreamModelUpdateRunContext: the budget and the counters all workers share. */
  class RunContext {
    var budget: int
    var validated: nat
    var rejected: nat
    var removedFailed: nat

    constructor (budget: int)
      ensures this.budget == budget && validated == 0 && rejected == 0 && removedFailed == 0
    {
      this.budget, validated, rejected, removedFailed := budget, 0, 0, 0;
    }

    /** consumeValidationBudget: what leaves the budget is counted as validated, and it never goes below zero. */
    method Consume() returns (ok: bool)
      modifies this`budget, this`validated
      ensures ok == (old(budget) > 0)
      ensures budget + validated == old(budget) + old(validated)
      ensures validated == old(validated) + (if ok then 1 else 0)
    {
      if budget <= 0 {
        return false;
      }
      budget, validated := budget - 1, validated + 1;
      return true;
    }
  }

  /** How a models column reads once it is normalized. */
  function Listed(column: string): (models: seq<string>)
    ensures Clean(models) && SepFree(models, ',')
  {
    ListedShape(column);
    Normalize(ReadList(column, ','))
  }

  lemma ListedShape(column: string)
    ensures Clean(Normalize(ReadList(column, ','))) && SepFree(Normalize(ReadList(column, ',')), ',')
  {
    var parts := ReadList(column, ',');
    NormalizeCleans(parts);
    ReadListShape(column, ',');
    forall name | name in Normalize(parts)
      ensures ',' !in name
    {
      NormalizeNames(parts, name);
      var part :| part in parts && TrimSpace(part) == name;
      if ',' in name {
        TrimSpaceSubset(part, ',');
      }
    }
  }

  /** The fields of a channel that a check reads and writes. */
  class ChannelState {
    var column: string
    var mapping: Stored
    var health: map<string, Health>
    var cursor: int

    constructor (column: string, mapping: Stored)
      ensures this.column == column && this.mapping == mapping && health == map[] && cursor == 0
    {
      this.column, this.mapping, health, cursor := column, mapping, map[], 0;
    }
  }

  function SampleOf(policy: Policy): int {
    if policy.candidatesOnly then 0 else policy.sample
  }

  /** A candidates-only run neither retries recorded failures nor samples. */
  function InputsOf(policy: Policy, health: map<string, Health>, candidates: seq<string>, now: int, budget: int)
    : Inputs
  {
    Inputs(candidates, if policy.candidatesOnly then map[] else health, now, budget)
  }

  /** The removals a completed run decides on. */
  function Decided(policy: Policy, models: seq<string>, health: map<string, Health>, tested: seq<string>,
                   probe: string -> Verdict, now: int): seq<string>
  {
    var asked := Keep(tested, Asking(health, tested, probe, Names(models), policy.removeFailed, policy.threshold));
    if Suspended(models, AllRecorded(health, tested, probe, Names(models), now)) then [] else Limited(models, asked)
  }

  /**
   The per-run limiter never trims a run: either the cumulative guard suspends every
   removal, or each model that asked for removal is removed.
   */
  lemma RemovalsAreAllOrNothing(policy: Policy, models: seq<string>, health: map<string, Health>, tested: seq<string>,
                                probe: string -> Verdict, now: int)
    requires Sane(policy) && Clean(models) && Clean(tested)
    ensures var asked := Keep(tested,
                              Asking(health, tested, probe, Names(models), policy.removeFailed, policy.threshold));
            var recorded := AllRecorded(health, tested, probe, Names(models), now);
            Decided(policy, models, health, tested, probe, now) == if Suspended(models, recorded) then [] else asked
  {
    var asking := Asking(health, tested, probe, Names(models), policy.removeFailed, policy.threshold);
    var recorded := AllRecorded(health, tested, probe, Names(models), now);
    AskingIsFailing(health, tested, probe, Names(models), now, policy.removeFailed, policy.threshold);
    KeepCleans(tested, asking);
    KeepNames(tested, asking);
    if !Suspended(models, recorded) {
      LimiterNeverBinds(models, recorded, Keep(tested, asking));
    }
  }

  lemma AskUnchanged(health: map<string, Health>, done: seq<string>, name: string, probe: string -> Verdict,
                     existing: set<string>, now: int)
    requires Distinct(done + [name])
    ensures var before := AllRecorded(health, done, probe, existing, now);
            (name in before <==> name in health) && (name in before ==> before[name] == health[name])
  {
    assert (done + [name])[|done|] == name;
    forall i | 0 <= i < |done|
      ensures done[i] != name
    {
      assert (done + [name])[i] == done[i];
    }
    assert Distinct(done) by {
      forall i, j | 0 <= i < j < |done|
        ensures done[i] != done[j]
      {
        assert (done + [name])[i] == done[i] && (done + [name])[j] == done[j];
      }
    }
    RecordedAt(health, done, probe, existing, now, name);
  }

  /** classifyModelValidationResult */
  method Classify(run: RunContext, name: string, v: Verdict, isCandidate: bool, isExisting: bool,
                  health: map<string, Health>, policy: Policy, now: int)
    returns (health': map<string, Health>, approve: bool, remove: bool)
    modifies run`rejected
    ensures health' == Recorded(health, name, v, isExisting, now)
    ensures approve == (v.Success? && isCandidate)
    ensures remove == AsksRemoval(health, name, v, isExisting, policy.removeFailed, policy.threshold)
    ensures run.rejected == old(run.rejected) + (if !v.Success? && isCandidate then 1 else 0)
  {
    if v.Success? {
      return health - {name}, isCandidate, false;
    }
    if isCandidate {
      run.rejected := run.rejected + 1;
    }
    if v.Inconclusive? || !isExisting {
      return health, false, false;
    }
    var failures := if name in health then health[name].failures + 1 else 1;
    return health[name := Health(failures, now)], false, policy.removeFailed && failures >= policy.threshold;
  }

  /** Everything the requests of one run depend on. */
  datatype Round = Round(selected: seq<string>, candidates: set<string>, existing: set<string>, policy: Policy,
                         health: map<string, Health>, now: int, probe: string -> Verdict)

  datatype Tally = Tally(health: map<string, Health>, approved: seq<string>, asked: seq<string>, rejected: int)

  /** What the first n requests of a round add up to. */
  function TallyOf(r: Round, n: nat): Tally
    requires n <= |r.selected|
  {
    var tested := r.selected[..n];
    Tally(AllRecorded(r.health, tested, r.probe, r.existing, r.now),
          Keep(tested, Passing(r.selected, r.probe, r.candidates)),
          Keep(tested, Asking(r.health, r.selected, r.probe, r.existing, r.policy.removeFailed, r.policy.threshold)),
          |Keep(tested, Rejecting(r.selected, r.probe, r.candidates))|)
  }

  /** One request more: it is judged by the health map as the round found it. */
  lemma TallyStep(r: Round, n: nat)
    requires n < |r.selected| && Distinct(r.selected)
    ensures var t, name := TallyOf(r, n), r.selected[n];
            var v := r.probe(name);
            TallyOf(r, n + 1) ==
            Tally(Recorded(t.health, name, v, name in r.existing, r.now),
                  if v.Success? && name in r.candidates then t.approved + [name] else t.approved,
                  if AsksRemoval(t.health, name, v, name in r.existing, r.policy.removeFailed, r.policy.threshold)
                  then t.asked + [name] else t.asked,
                  if !v.Success? && name in r.candidates then t.rejected + 1 else t.rejected)
  {
    var tested, name := r.selected[..n], r.selected[n];
    assert r.selected[..n + 1] == tested + [name] && (tested + [name])[..n] == tested;
    AskUnchanged(r.health, tested, name, r.probe, r.existing, r.now);
    KeepPush(tested, name, Passing(r.selected, r.probe, r.candidates));
    KeepPush(tested, name,
             Asking(r.health, r.selected, r.probe, r.existing, r.policy.removeFailed, r.policy.threshold));
    KeepPush(tested, name, Rejecting(r.selected, r.probe, r.candidates));
  }

  /** The requests of one run, in order, until something stops them. */
  method TestSelected(run: RunContext, r: Round, stop: nat -> Stop)
    returns (n: nat, health: map<string, Health>, approved: seq<string>, asked: seq<string>, cancelled: bool)
    requires Distinct(r.selected)
    modifies run
    ensures n <= |r.selected| && TallyOf(r, n) == Tally(health, approved, asked, run.rejected - old(run.rejected))
    ensures cancelled ==> 0 < n < |r.selected| && stop(n).Return?
    ensures !cancelled && n < |r.selected| ==> stop(n).Break? || run.budget <= 0
    ensures run.budget + n == old(run.budget) && run.validated == old(run.validated) + n
    ensures run.removedFailed == old(run.removedFailed)
  {
    n, health, approved, asked, cancelled := 0, r.health, [], [], false;
    while n < |r.selected|
      invariant n <= |r.selected| && TallyOf(r, n) == Tally(health, approved, asked, run.rejected - old(run.rejected))
      invariant run.budget + n == old(run.budget) && run.validated == old(run.validated) + n
      invariant run.removedFailed == old(run.removedFailed)
    {
      if stop(n).Break? || run.budget <= 0 {
        break;
      }
      if n > 0 && stop(n).Return? {
        cancelled := true;
        return;
      }
      var ok := run.Consume();
      if !ok {
        break;
      }
      TallyStep(r, n);
      var name, approve, remove := r.selected[n], false, false;
      health, approve, remove := Classify(run, name, r.probe(name), name in r.candidates, name in r.existing, health,
                                          r.policy, r.now);
      approved := if approve then approved + [name] else approved;
      asked := if remove then asked + [name] else asked;
      n := n + 1;
    }
  }

  lemma NarrowSets(selected: seq<string>, n: nat, probe: string -> Verdict, candidates: set<string>,
                   health: map<string, Health>, existing: set<string>, removeFailed: bool, threshold: int)
    requires n <= |selected|
    ensures var tested := selected[..n];
            && Keep(tested, Passing(selected, probe, candidates)) == Keep(tested, Passing(tested, probe, candidates))
            && Keep(tested, Asking(health, selected, probe, existing, removeFailed, threshold)) ==
               Keep(tested, Asking(health, tested, probe, existing, removeFailed, threshold))
            && Keep(tested, Rejecting(selected, probe, candidates)) ==
               Keep(tested, Rejecting(tested, probe, candidates))
  {
    var tested := selected[..n];
    KeepAgree(tested, Rejecting(selected, probe, candidates), Rejecting(tested, probe, candidates));
    KeepAgree(tested, Passing(selected, probe, candidates), Passing(tested, probe, candidates));
    KeepAgree(tested, Asking(health, selected, probe, existing, removeFailed, threshold),
              Asking(health, tested, probe, existing, removeFailed, threshold));
  }

  /** What a run leaves behind: the list of removals and the health map. */
  predicate Settled(policy: Policy, models: seq<string>, before: map<string, Health>, tested: seq<string>,
                    probe: string -> Verdict, now: int, approved: seq<string>, removed: seq<string>, cancelled: bool,
                    after: map<string, Health>)
  {
    var recorded := AllRecorded(before, tested, probe, Names(models), now);
    if cancelled then removed == [] && after == (if before == map[] then map[] else recorded)
    else
      && removed == Decided(policy, models, before, tested, probe, now)
      && Pruned(recorded, Names(Merge(models, approved)), after)
  }

  /** The part of validateChannelModels after the requests. */
  method Settle(policy: Policy, models: seq<string>, ghost before: map<string, Health>, unset: bool,
                tested: seq<string>, probe: string -> Verdict, now: int, health: map<string, Health>,
                approved: seq<string>, asked: seq<string>, cancelled: bool)
    returns (removed: seq<string>, after: map<string, Health>)
    requires health == AllRecorded(before, tested, probe, Names(models), now) && unset == (before == map[])
    requires asked == Keep(tested, Asking(before, tested, probe, Names(models), policy.removeFailed, policy.threshold))
    ensures Settled(policy, models, before, tested, probe, now, approved, removed, cancelled, after)
  {
    removed := [];
    if cancelled {
      // A map that already existed was updated in place; a new one is lost.
      after := if unset then map[] else health;
      return;
    }
    if !Suspended(models, health) {
      removed := Limited(models, asked);
    }
    after := Prune(health, Names(Merge(models, approved)));
  }

  /** What a run plans to test. */
  function Plan(policy: Policy, models: seq<string>, cursor: int, inputs: Inputs): seq<string> {
    Selected(models, policy.delay, SampleOf(policy), cursor, inputs)
  }

  ghost predicate Uninterrupted(stop: nat -> Stop) {
    forall i :: stop(i).Go?
  }

  /** Selects and tests; an uninterrupted run gets through its whole plan. */
  method SelectAndTest(run: RunContext, models: seq<string>, cursor: int, health: map<string, Health>, policy: Policy,
                       candidates: seq<string>, now: int, probe: string -> Verdict, stop: nat -> Stop,
                       ghost inputs: Inputs)
    returns (tested: seq<string>, nextCursor: int, health': map<string, Health>, approved: seq<string>,
             asked: seq<string>, cancelled: bool)
    requires Clean(models) && inputs == InputsOf(policy, health, candidates, now, run.budget)
    modifies run
    ensures tested <= Plan(policy, models, cursor, inputs) &&
            nextCursor == NextCursor(models, policy.delay, SampleOf(policy), cursor, inputs)
    ensures Uninterrupted(stop) ==> !cancelled && tested == Plan(policy, models, cursor, inputs)
    ensures health' == AllRecorded(health, tested, probe, Names(models), now)
    ensures approved == Keep(tested, Passing(tested, probe, Names(Normalize(candidates))))
    ensures asked == Keep(tested, Asking(health, tested, probe, Names(models), policy.removeFailed, policy.threshold))
    ensures run.budget + |tested| == old(run.budget) && run.validated == old(run.validated) + |tested|
    ensures run.rejected == old(run.rejected) + |Keep(tested, Rejecting(tested, probe, Names(Normalize(candidates))))|
    ensures run.removedFailed == old(run.removedFailed)
  {
    NormalizeCleans(models);
    var selected;
    selected, nextCursor := SelectForValidation(models, policy.delay, SampleOf(policy), cursor,
                                                InputsOf(policy, health, candidates, now, run.budget));
    SelectionBounded(models, policy.delay, SampleOf(policy), cursor, inputs);
    var candidateSet, existingSet, n := Names(Normalize(candidates)), Names(models), 0;
    n, health', approved, asked, cancelled :=
      TestSelected(run, Round(selected, candidateSet, existingSet, policy, health, now, probe), stop);
    tested := selected[..n];
    NarrowSets(selected, n, probe, candidateSet, health, existingSet, policy.removeFailed, policy.threshold);
  }

  /** validateChannelModels */
  method ValidateChannelModels(run: RunContext, ch: ChannelState, policy: Policy, candidates: seq<string>, now: int,
                               probe: string -> Verdict, stop: nat -> Stop)
    returns (approved: seq<string>, removed: seq<string>, cancelled: bool, tested: seq<string>)
    modifies run, ch
    ensures ch.column == old(ch.column) && ch.mapping == old(ch.mapping)
    ensures var models := Listed(ch.column);
            var inputs := InputsOf(policy, old(ch.health), candidates, now, old(run.budget));
            && tested <= Plan(policy, models, old(ch.cursor), inputs)
            && ch.cursor == NextCursor(models, policy.delay, SampleOf(policy), old(ch.cursor), inputs)
            && (Uninterrupted(stop) ==> !cancelled && tested == Plan(policy, models, old(ch.cursor), inputs))
    ensures approved == Keep(tested, Passing(tested, probe, Names(Normalize(candidates))))
    ensures Settled(policy, Listed(ch.column), old(ch.health), tested, probe, now, approved, removed, cancelled,
                    ch.health)
    ensures run.budget + |tested| == old(run.budget) && run.validated == old(run.validated) + |tested|
    ensures run.rejected == old(run.rejected) + |Keep(tested, Rejecting(tested, probe, Names(Normalize(candidates))))|
    ensures run.removedFailed == old(run.removedFailed) + |removed|
  {
    var models := Listed(ch.column);
    var start := ch.health;
    ghost var inputs := InputsOf(policy, start, candidates, now, run.budget);
    var cursor, health, asked, after;
    tested, cursor, health, approved, asked, cancelled :=
      SelectAndTest(run, models, ch.cursor, start, policy, candidates, now, probe, stop, inputs);
    removed, after := Settle(policy, models, start, start == map[], tested, probe, now, health, approved, asked,
                             cancelled);
    ch.cursor, ch.health := cursor, after;
    run.removedFailed := run.removedFailed + |removed|;
  }
}
