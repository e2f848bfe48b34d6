/**
 One scheduled check of a channel (checkAndPersistChannelUpstreamModelUpdates), and what
 holds over any number of checks of the same channel, and of sweeps between them.
 */
module ModelUpdate {
  import opened Adoption
  import opened NameLists
  import opened Selection
  import opened Text
  import opened UpstreamDiff
  import opened Validation

  // ---------------------------------------------------------------- failures over many runs

  /** What one run found out about each model it tested. */
  type Results = map<string, Verdict>

  function ResultsOf(tested: seq<string>, probe: string -> Verdict): Results {
    map m | m in tested :: probe(m)
  }

  /** In how many runs since its last success a model had a conclusive fault. */
  function Streak(history: seq<Results>, name: string): nat {
    if history == [] then 0
    else
      var before, last := Streak(history[..|history| - 1], name), history[|history| - 1];
      if name !in last then before
      else match last[name]
        case Success => 0
        case Inconclusive => before
        case Fault => before + 1
  }

  function Failures(health: map<string, Health>, name: string): int {
    if name in health then health[name].failures else 0
  }

  /** How any one step may change the health map, given what it found out. */
  predicate HealthStep(before: map<string, Health>, after: map<string, Health>, results: Results) {
    forall m :: m in after ==>
      if m in results && results[m].Fault? then after[m].failures <= Failures(before, m) + 1
      else m in before && after[m].failures == before[m].failures && !(m in results && results[m].Success?)
  }

  /** A validation run, completed or cancelled, whatever pruning and the cap dropped. */
  lemma ValidationHealthStep(health: map<string, Health>, tested: seq<string>, probe: string -> Verdict,
                             existing: set<string>, now: int, after: map<string, Health>)
    requires Distinct(tested)
    requires var recorded := AllRecorded(health, tested, probe, existing, now);
             after.Keys <= recorded.Keys && forall m :: m in after ==> after[m] == recorded[m]
    ensures HealthStep(health, after, ResultsOf(tested, probe))
  {
    forall m | m in after
      ensures if m in tested && probe(m).Fault? then after[m].failures <= Failures(health, m) + 1
              else m in health && after[m].failures == health[m].failures && !(m in tested && probe(m).Success?)
    {
      RecordedAt(health, tested, probe, existing, now, m);
    }
  }

  /**
   ApplyChannelModelSweep (model/channel_settings_mutate.go): models that stay lose
   their entry, removed ones are recorded with one failure.
   */
  function Swept(before: map<string, Health>, kept: set<string>, removed: set<string>, now: int): map<string, Health> {
    (before - kept) + (map m | m in removed :: Health(1, now))
  }

  lemma SweepHealthStep(before: map<string, Health>, kept: set<string>, removed: set<string>, results: Results,
                        now: int)
    requires forall m :: m in removed ==> m in results && results[m].Fault?
    requires forall m :: m in results && results[m].Success? ==> m in kept
    requires removed !! kept && forall m :: m in before ==> before[m].failures >= 0
    ensures HealthStep(before, Swept(before, kept, removed, now), results)
  {}

  /** One step of a channel's life: what was found out, and the health map it left. */
  datatype Moment = Moment(results: Results, health: map<string, Health>)

  function HealthAfter(life: seq<Moment>): map<string, Health> {
    if life == [] then map[] else life[|life| - 1].health
  }

  function History(life: seq<Moment>): (h: seq<Results>)
    ensures |h| == |life|
    ensures forall i :: 0 <= i < |h| ==> h[i] == life[i].results
  {
    seq(|life|, i requires 0 <= i < |life| => life[i].results)
  }

  /** A life that starts without records and moves by legal steps. */
  predicate Legal(life: seq<Moment>) {
    life == [] ||
    (var init := life[..|life| - 1];
     Legal(init) && HealthStep(HealthAfter(init), life[|life| - 1].health, life[|life| - 1].results))
  }

  /** Recorded failures never exceed the faults since the last success. */
  lemma {:induction false} RecordedWithinStreak(life: seq<Moment>, name: string)
    requires Legal(life) && name in HealthAfter(life)
    ensures HealthAfter(life)[name].failures <= Streak(History(life), name)
  {
    var init, last := life[..|life| - 1], life[|life| - 1];
    assert History(life)[..|life| - 1] == History(init);
    if name in HealthAfter(init) {
      RecordedWithinStreak(init, name);
    }
  }

  /** A fault on top of what is on record makes a streak at least that long. */
  lemma FaultsAddUp(life: seq<Moment>, results: Results, name: string)
    requires Legal(life) && name in results && results[name].Fault?
    ensures Streak(History(life) + [results], name) >= Failures(HealthAfter(life), name) + 1
  {
    if name in HealthAfter(life) {
      RecordedWithinStreak(life, name);
    }
    var history := History(life) + [results];
    assert history[..|history| - 1] == History(life);
  }

  /**
   A model is only removed by validation after the threshold's worth of conclusive
   faults since its last success, one per run.
   */
  lemma RemovalNeedsThreshold(life: seq<Moment>, policy: Policy, models: seq<string>, tested: seq<string>,
                              probe: string -> Verdict, now: int, name: string)
    requires Legal(life) && Clean(tested)
    requires name in Decided(policy, models, HealthAfter(life), tested, probe, now)
    ensures Streak(History(life) + [ResultsOf(tested, probe)], name) >= policy.threshold
  {
    DecidedAsks(policy, models, HealthAfter(life), tested, probe, now, name);
    FaultsAddUp(life, ResultsOf(tested, probe), name);
  }

  lemma DecidedAsks(policy: Policy, models: seq<string>, health: map<string, Health>, tested: seq<string>,
                    probe: string -> Verdict, now: int, name: string)
    requires Clean(tested) && name in Decided(policy, models, health, tested, probe, now)
    ensures name in tested &&
            AsksRemoval(health, name, probe(name), name in Names(models), policy.removeFailed, policy.threshold)
  {
    var asking := Asking(health, tested, probe, Names(models), policy.removeFailed, policy.threshold);
    var asked := Keep(tested, asking);
    assert name in Limited(models, asked);
    LimitedMembers(models, asked, name);
    KeepCleans(tested, asking);
    NormalizeCleans(asked);
    KeepNames(tested, asking);
    assert name in Names(asked);
  }

  lemma LimitedMembers(models: seq<string>, asked: seq<string>, name: string)
    requires name in Limited(models, asked)
    ensures name in Normalize(asked)
  {
    KeepNames(Normalize(asked), Names(Normalize(Normalize(models))));
    assert name in Names(Intersect(asked, Normalize(models)));
  }

  /** Names the runs behind a streak: all faults, in order, with no success from the first of them on. */
  lemma {:induction false} StreakRuns(history: seq<Results>, name: string) returns (runs: seq<nat>)
    ensures |runs| == Streak(history, name)
    ensures forall i, j :: 0 <= i < j < |runs| ==> runs[i] < runs[j]
    ensures forall i :: 0 <= i < |runs| ==>
            runs[i] < |history| && name in history[runs[i]] && history[runs[i]][name].Fault?
    ensures forall r :: 0 <= r < |history| && runs != [] && runs[0] <= r && name in history[r] ==>
            !history[r][name].Success?
  {
    if history == [] {
      runs := [];
    } else {
      var init, last := history[..|history| - 1], history[|history| - 1];
      runs := StreakRuns(init, name);
      assert forall r :: 0 <= r < |init| ==> init[r] == history[r];
      if name in last && last[name].Success? {
        runs := [];
      } else if name in last && last[name].Fault? {
        runs := runs + [|init|];
      }
    }
  }

  // ---------------------------------------------------------------- one check of a channel

  /** What a check may do to a model list. */
  predicate Moderate(before: seq<string>, after: seq<string>) {
    && Clean(after)
    && 2 * |Names(before) - Names(after)| <= |before|
    && (before != [] ==> after != [])
  }

  /** Removals a list can stand: served names, at most half of them, and never all. */
  predicate Bearable(models: seq<string>, failed: seq<string>) {
    Clean(failed) && Names(failed) <= Names(models) && 2 * |failed| <= |models| &&
      (models != [] ==> |failed| < |models|)
  }

  lemma MergeKeeps(models: seq<string>, add: seq<string>)
    requires Clean(models)
    ensures models <= Merge(models, add)
  {
    NormalizeCleans(models);
    MergeCleans(models, add);
  }

  /** Removing at most half of a list, after additions that are not removed again. */
  lemma TargetModerate(models: seq<string>, add: seq<string>, failed: seq<string>)
    requires Clean(models) && Bearable(models, failed)
    ensures Moderate(models, Subtract(Merge(models, add), failed))
    ensures Names(Subtract(Merge(models, add), failed)) == (Names(models) + Names(Normalize(add))) - Names(failed)
  {
    NormalizeCleans(models);
    NormalizeCleans(failed);
    MergeCleans(models, add);
    var merged := Merge(models, add);
    NormalizeCleans(merged);
    SubtractCleans(merged, failed);
    var target := Subtract(merged, failed);
    DistinctCount(failed);
    DistinctCount(models);
    SubsetCount(Names(models) - Names(target), Names(failed));
    if models != [] {
      assert |Names(models) - Names(failed)| == |models| - |failed|;
      assert Names(models) - Names(failed) <= Names(target);
      SubsetCount(Names(models) - Names(failed), Names(target));
      DistinctCount(target);
    }
  }

  /** What a completed or cancelled validation run hands to the list update. */
  lemma DecidedModerate(policy: Policy, models: seq<string>, health: map<string, Health>, tested: seq<string>,
                        probe: string -> Verdict, now: int)
    requires Clean(models)
    ensures Bearable(models, Decided(policy, models, health, tested, probe, now))
  {
    NormalizeCleans(models);
    var asking := Asking(health, tested, probe, Names(models), policy.removeFailed, policy.threshold);
    LimitedBound(models, Keep(tested, asking));
  }

  /** A run that only tests names the channel does not serve removes nothing. */
  lemma NothingServedNothingRemoved(policy: Policy, models: seq<string>, health: map<string, Health>,
                                    tested: seq<string>, probe: string -> Verdict, now: int)
    requires Names(tested) !! Names(models)
    ensures Decided(policy, models, health, tested, probe, now) == []
  {
    var asking := Asking(health, tested, probe, Names(models), policy.removeFailed, policy.threshold);
    assert asking <= Names(tested) * Names(models);
    KeepNone(tested, asking);
    assert Intersect([], Normalize(models)) == [];
  }

  /**
   One scheduled check: the settings it meets, what the upstream lists, the order in which the
   mapping happens to be read, and how the world answers.
   */
  datatype Check = Check(policy: Policy, upstream: seq<string>, ignored: string -> bool,
                         normal: map<string, string> -> map<string, string>,
                         strip: bool, autoApply: bool, validate: bool, now: int, budget: int,
                         probe: string -> Verdict, stop: nat -> Stop)

  /** The mapping is read as normalizeChannelModelMapping may read it. */
  ghost predicate Orderly(c: Check) {
    forall raw :: NormalForm(raw, c.normal(raw))
  }

  function Raw(mapping: Stored): map<string, string> {
    if mapping.Parsed? then mapping.m else map[]
  }

  function DiffFor(c: Check, models: seq<string>, mapping: Stored): Diff {
    DiffOf(models, Normalize(c.upstream), c.ignored, c.normal(Raw(mapping)), c.strip)
  }

  /** The mapping once entries were merged into it: what is stored wins, and what does not parse stays. */
  function MergedInto(mapping: Stored, entries: map<string, string>): Stored {
    if mapping.Unparsable? then mapping else Parsed(entries + mapping.m)
  }

  /** The list after adding and removing. */
  function Target(models: seq<string>, add: seq<string>, failed: seq<string>): seq<string> {
    Subtract(Merge(models, add), failed)
  }

  /** Leaving out an empty step makes no difference, and neither does keeping the list as it stands. */
  lemma TargetCases(models: seq<string>, add: seq<string>, failed: seq<string>)
    requires Clean(models) && Clean(add) && Bearable(models, failed)
    ensures var merged := if add != [] then Merge(models, add) else models;
            Target(models, add, failed) == if failed != [] then Subtract(merged, failed) else merged
    ensures failed == [] ==> models <= Target(models, add, failed)
    ensures Clean(Target(models, add, failed))
  {
    NormalizeCleans(models);
    NormalizeCleans(add);
    NormalizeCleans(failed);
    MergeKeeps(models, add);
    if add == [] {
      assert Merge(models, add) == models;
    }
    var merged := Merge(models, add);
    MergeCleans(models, add);
    NormalizeCleans(merged);
    SubtractCleans(merged, failed);
    if failed == [] {
      DropNames(merged, Names(failed));
    }
  }

  /** The validation of a check, reduced to what the list update uses. */
  method Confirm(run: RunContext, ch: ChannelState, c: Check, candidates: seq<string>)
    returns (approved: seq<string>, failed: seq<string>, tested: seq<string>)
    requires Clean(candidates) && Names(candidates) !! Names(Listed(ch.column))
    modifies run, ch
    ensures ch.column == old(ch.column) && ch.mapping == old(ch.mapping)
    ensures Clean(tested) && approved == Keep(tested, Passing(tested, c.probe, Names(candidates)))
    ensures HealthStep(old(ch.health), ch.health, ResultsOf(tested, c.probe))
    ensures Acts(c) ==> RemovalsOf(c, Listed(ch.column), old(ch.health), tested, failed)
    ensures Bearable(Listed(ch.column), failed)
    ensures c.policy.candidatesOnly ==> failed == []
  {
    ghost var models, health, cursor := Listed(ch.column), ch.health, ch.cursor;
    NormalizeCleans(candidates);
    ghost var inputs := InputsOf(c.policy, ch.health, candidates, c.now, run.budget);
    var cancelled;
    approved, failed, cancelled, tested := ValidateChannelModels(run, ch, c.policy, candidates, c.now, c.probe, c.stop);
    SelectionClean(models, c.policy.delay, SampleOf(c.policy), cursor, inputs);
    PrefixClean(Plan(c.policy, models, cursor, inputs), tested);
    ValidationHealthStep(health, tested, c.probe, Names(models), c.now, ch.health);
    DecidedModerate(c.policy, models, health, tested, c.probe, c.now);
    if c.policy.candidatesOnly {
      CandidatesOnlyTests(c.policy, models, cursor, inputs, candidates, tested);
      NothingServedNothingRemoved(c.policy, models, health, tested, c.probe, c.now);
    }
  }

  lemma CandidatesOnlyTests(policy: Policy, models: seq<string>, cursor: int, inputs: Inputs, candidates: seq<string>,
                            tested: seq<string>)
    requires policy.candidatesOnly && Clean(candidates) && inputs.candidates == candidates && inputs.health == map[]
    requires tested <= Plan(policy, models, cursor, inputs)
    ensures Names(tested) <= Names(candidates)
  {
    NormalizeCleans(candidates);
    CandidatesOnlySelection(models, policy.delay, cursor, inputs);
    assert forall x :: x in tested ==> x in Plan(policy, models, cursor, inputs);
  }

  lemma PrefixClean(s: seq<string>, prefix: seq<string>)
    requires Clean(s) && prefix <= s
    ensures Clean(prefix)
  {
    assert forall x :: x in prefix ==> x in s;
  }

  /** A check acts on the list and on the health map. */
  predicate Acts(c: Check) {
    c.autoApply && c.validate
  }

  /** One check in a channel's history: the list and the failure records before and after, and what was found out. */
  datatype Entry = Entry(threshold: int, mayRemove: bool, before: seq<string>, after: seq<string>,
                         health: map<string, Health>, results: Results, health': map<string, Health>)

  /** A model leaves only on a conclusive fault that brings its record up to the threshold. */
  predicate Justified(e: Entry) {
    forall n :: n in e.before && n !in e.after ==>
      e.mayRemove && n in e.results && e.results[n].Fault? && Failures(e.health, n) + 1 >= e.threshold
  }

  /** What a check may do: to the list, and to the record of failures. */
  predicate CheckStep(e: Entry) {
    Moderate(e.before, e.after) && HealthStep(e.health, e.health', e.results) && Justified(e)
  }

  function EntryOf(c: Check, before: seq<string>, after: seq<string>, health: map<string, Health>,
                   health': map<string, Health>, tested: seq<string>): Entry
  {
    Entry(c.policy.threshold, Acts(c) && !c.policy.candidatesOnly, before, after,
          health, ResultsOf(tested, c.probe), health')
  }

  /** The additions a check goes by: what passed, or everything pending when nothing is validated. */
  function AddFor(c: Check, pending: seq<string>, tested: seq<string>): seq<string> {
    if Acts(c) then Keep(tested, Passing(tested, c.probe, Names(pending))) else pending
  }

  /** The removals are the ones the run decided on; only an interruption can leave them out. */
  ghost predicate RemovalsOf(c: Check, models: seq<string>, health: map<string, Health>, tested: seq<string>,
                             failed: seq<string>)
  {
    && (failed == [] || (Acts(c) && !c.policy.candidatesOnly &&
                         failed == Decided(c.policy, models, health, tested, c.probe, c.now)))
    && (Acts(c) && !c.policy.candidatesOnly && Uninterrupted(c.stop) ==>
        failed == Decided(c.policy, models, health, tested, c.probe, c.now))
  }

  /** The first half of a check: what is pending, and what a validation makes of it. */
  method Evaluate(run: RunContext, ch: ChannelState, c: Check)
    returns (found: Diff, add: seq<string>, failed: seq<string>, tested: seq<string>)
    modifies run, ch
    ensures ch.column == old(ch.column) && ch.mapping == old(ch.mapping) &&
            found == DiffFor(c, Listed(ch.column), ch.mapping)
    ensures add == AddFor(c, found.add, tested) && RemovalsOf(c, Listed(ch.column), old(ch.health), tested, failed)
    ensures Clean(add) && Bearable(Listed(ch.column), failed)
    ensures !Acts(c) ==> tested == [] && ch.health == old(ch.health) && ch.cursor == old(ch.cursor)
    ensures Clean(tested) && HealthStep(old(ch.health), ch.health, ResultsOf(tested, c.probe))
  {
    var models := Listed(ch.column);
    ghost var health := ch.health;
    NormalizeCleans(models);
    NormalizeCleans(c.upstream);
    var m := c.normal(Raw(ch.mapping));
    found := CollectPending(models, c.upstream, c.ignored, m, c.strip);
    AddIsNew(models, Normalize(c.upstream), c.ignored, m, c.strip);
    add, failed, tested := found.add, [], [];
    if Acts(c) {
      add, failed, tested := Confirm(run, ch, c, found.add);
      KeepCleans(tested, Passing(tested, c.probe, Names(found.add)));
      KeepNames(tested, Passing(tested, c.probe, Names(found.add)));
    }
  }

  /** A list written to the column and read back. */
  function Reread(models: seq<string>): seq<string> {
    Listed(Join(models, ','))
  }

  lemma RereadStable(models: seq<string>)
    requires Clean(models) && SepFree(models, ',')
    ensures Reread(models) == models
  {
    NormalizeCleans(models);
    if models != [] {
      assert models[0] in models && models[|models| - 1] in models;
      StorageRoundTrip(models, ',');
    }
  }

  /** The second half: the list is rewritten, or the additions stay staged. */
  method Apply(ch: ChannelState, autoApply: bool, add: seq<string>, failed: seq<string>) returns (staged: seq<string>)
    requires Clean(add) && Bearable(Listed(ch.column), failed)
    modifies ch`column
    ensures Listed(ch.column) ==
            if autoApply then Reread(Target(Listed(old(ch.column)), add, failed)) else Listed(old(ch.column))
    ensures staged == if autoApply && (add != [] || failed != []) then [] else add
    ensures !autoApply ==> ch.column == old(ch.column)
  {
    var models := Listed(ch.column);
    TargetCases(models, add, failed);
    RereadStable(models);
    if !autoApply || (add == [] && failed == []) {
      return add;
    }
    var target := models;
    if add != [] {
      target := Merge(target, add);
    }
    if failed != [] {
      target := Subtract(target, failed);
    }
    if target != models {
      ch.column := Join(target, ',');
    }
    return [];
  }

  /** The mapping column gains the entries of what is adopted. */
  method ApplyMapping(ch: ChannelState, entries: map<string, string>)
    modifies ch`mapping
    ensures ch.mapping == MergedInto(old(ch.mapping), entries)
  {
    var merged, changed := MergeChannelMapping(ch.mapping, entries);
    if changed {
      assert merged == entries + ch.mapping.m;
      ch.mapping := Parsed(merged);
    } else if ch.mapping.Parsed? {
      assert entries + ch.mapping.m == ch.mapping.m;
    }
  }

  /** What is pending for the mapping, and both columns rewritten, or neither. */
  method Persist(ch: ChannelState, autoApply: bool, pending: map<string, string>, add: seq<string>, failed: seq<string>,
                 ghost models: seq<string>, ghost mapping: Stored)
    returns (staged: seq<string>, entries: map<string, string>)
    requires Listed(ch.column) == models && ch.mapping == mapping && Clean(add) && Bearable(models, failed)
    modifies ch`column, ch`mapping
    ensures Listed(ch.column) == if autoApply then Reread(Target(models, add, failed)) else models
    ensures staged == if autoApply && (add != [] || failed != []) then [] else add
    ensures entries == Narrowed(pending, add)
    ensures ch.mapping == if autoApply && add != [] then MergedInto(mapping, entries) else mapping
    ensures !autoApply ==> ch.column == old(ch.column)
  {
    NormalizeCleans(add);
    entries := PendingMappingFor(pending, add);
    if autoApply && add != [] {
      ApplyMapping(ch, entries);
    }
    staged := Apply(ch, autoApply, add, failed);
  }

  /** checkAndPersistChannelUpstreamModelUpdates after a successful fetch of the upstream list */
  method CheckChannel(run: RunContext, ch: ChannelState, c: Check)
    returns (staged: seq<string>, entries: map<string, string>, add: seq<string>, failed: seq<string>,
             tested: seq<string>)
    modifies run, ch
    ensures add == AddFor(c, DiffFor(c, Listed(old(ch.column)), old(ch.mapping)).add, tested)
    ensures RemovalsOf(c, Listed(old(ch.column)), old(ch.health), tested, failed)
    ensures Listed(ch.column) ==
            if c.autoApply then Reread(Target(Listed(old(ch.column)), add, failed)) else Listed(old(ch.column))
    ensures staged == if c.autoApply && (add != [] || failed != []) then [] else add
    ensures entries == Narrowed(DiffFor(c, Listed(old(ch.column)), old(ch.mapping)).entries, add)
    ensures ch.mapping == if c.autoApply && add != [] then MergedInto(old(ch.mapping), entries) else old(ch.mapping)
    ensures !c.autoApply ==> ch.column == old(ch.column)
    ensures !Acts(c) ==> tested == [] && ch.health == old(ch.health) && ch.cursor == old(ch.cursor)
    ensures Clean(add) && Clean(tested) && HealthStep(old(ch.health), ch.health, ResultsOf(tested, c.probe))
  {
    ghost var models, mapping := Listed(ch.column), ch.mapping;
    var found;
    found, add, failed, tested := Evaluate(run, ch, c);
    staged, entries := Persist(ch, c.autoApply, found.entries, add, failed, models, mapping);
  }

  /**
   A check that applies without validating is one adoption, in the list and in the mapping, so
   OneAdoptionSettles says exactly what the next check finds.
   */
  lemma UnvalidatedCheckAdopts(c: Check, models: seq<string>, mapping: Stored)
    requires Clean(models)
    ensures var diff := DiffFor(c, models, mapping);
            var written := if mapping.Parsed? then Narrowed(diff.entries, diff.add) else map[];
            && Reread(Target(models, diff.add, [])) == Adopted(models, diff.add)
            && WrittenFrom(written, diff.entries)
            && Raw(MergedInto(mapping, Narrowed(diff.entries, diff.add))) == written + Raw(mapping)
  {
    var diff, none: seq<string> := DiffFor(c, models, mapping), [];
    NormalizeCleans(models);
    MergeCleans(models, diff.add);
    NormalizeCleans(Merge(models, diff.add));
    NormalizeCleans(none);
    DropNames(Merge(models, diff.add), Names(none));
  }

  /**
   What the check after it finds, whatever order it reads the mapping in: nothing to add exactly
   when every listed id that list and added parts do not reach is pinned by the mapping; the same
   removals exactly when every part of an added name stays; and without commas in what is added
   and clashes in the mapping, both.
   */
  lemma NextCheckExactly(c: Check, models: seq<string>, mapping: Stored)
    requires Clean(models) && SepFree(models, ',') && Orderly(c)
    ensures var diff, upstream := DiffFor(c, models, mapping), Normalize(c.upstream);
            var models' := Reread(Target(models, diff.add, []));
            var raw' := Raw(MergedInto(mapping, Narrowed(diff.entries, diff.add)));
            && (AdditionsSettle(models', upstream, c.ignored, raw', c.strip) <==>
                RestPinned(models, diff.add, upstream, c.ignored, raw', c.strip))
            && (RemovalsSettle(models', upstream, c.ignored, raw', c.strip, diff.remove) <==>
                PartsKept(models, diff.add, upstream, c.normal(Raw(mapping)), c.strip))
            && (SepFree(diff.add, ',') && Unambiguous(raw') ==>
                  AdditionsSettle(models', upstream, c.ignored, raw', c.strip) &&
                  RemovalsSettle(models', upstream, c.ignored, raw', c.strip, diff.remove))
  {
    NormalizeCleans(c.upstream);
    var diff, upstream := DiffFor(c, models, mapping), Normalize(c.upstream);
    var raw, m := Raw(mapping), c.normal(Raw(mapping));
    var written := if mapping.Parsed? then Narrowed(diff.entries, diff.add) else map[];
    UnvalidatedCheckAdopts(c, models, mapping);
    OneAdoptionSettles(models, upstream, c.ignored, raw, written, m, c.strip);
    if SepFree(diff.add, ',') {
      FixedPoint(models, upstream, c.ignored, raw, written, m, c.strip);
    }
  }

  // ---------------------------------------------------------------- any number of checks

  function LifeOf(es: seq<Entry>): (life: seq<Moment>)
    ensures |life| == |es|
  {
    if es == [] then []
    else
      var e := es[|es| - 1];
      LifeOf(es[..|es| - 1]) + [Moment(e.results, e.health')]
  }

  /** Checks one after the other, on a channel that starts without failure records. */
  predicate Chronicle(es: seq<Entry>) {
    es == [] ||
    (var init, e := es[..|es| - 1], es[|es| - 1];
     && Chronicle(init) && CheckStep(e) && e.health == HealthAfter(LifeOf(init))
     && (init != [] ==> e.before == init[|init| - 1].after))
  }

  lemma ChroniclePush(es: seq<Entry>, e: Entry)
    requires Chronicle(es) && CheckStep(e) && e.health == HealthAfter(LifeOf(es))
    requires es != [] ==> e.before == es[|es| - 1].after
    ensures Chronicle(es + [e]) && HealthAfter(LifeOf(es + [e])) == e.health'
  {
    assert (es + [e])[..|es|] == es;
  }

  lemma RemovalJustified(c: Check, models: seq<string>, add: seq<string>, failed: seq<string>,
                         health: map<string, Health>, tested: seq<string>, n: string)
    requires Clean(models) && Clean(add) && Clean(tested) && RemovalsOf(c, models, health, tested, failed)
    requires n in models && n !in Target(models, add, failed)
    ensures Acts(c) && !c.policy.candidatesOnly
    ensures n in tested && c.probe(n).Fault? && Failures(health, n) + 1 >= c.policy.threshold
  {
    NormalizeCleans(models);
    NormalizeCleans(failed);
    MergeKeeps(models, add);
    MergeCleans(models, add);
    NormalizeCleans(Merge(models, add));
    SubtractCleans(Merge(models, add), failed);
    assert n in Names(Merge(models, add)) && n !in Names(Target(models, add, failed));
    assert n in Names(Normalize(failed));
    if failed != [] {
      DecidedModerate(c.policy, models, health, tested, c.probe, c.now);
      DecidedAsks(c.policy, models, health, tested, c.probe, c.now, n);
    }
  }

  /** Names without a comma are read back, so reading the column again loses nothing more. */
  lemma RereadKeeps(models: seq<string>, target: seq<string>)
    requires Clean(models) && SepFree(models, ',') && Moderate(models, target)
    ensures Moderate(models, Reread(target))
    ensures forall n :: n in models && n in target ==> n in Reread(target)
  {
    forall n | n in models && n in target
      ensures n in Reread(target)
    {
      PartsSurvive(target, ',', n);
      NormalizeNames(ReadList(Join(target, ','), ','), n);
      TrimSpaceFixes(n);
    }
    var lost, lost' := Names(models) - Names(target), Names(models) - Names(Reread(target));
    SubsetCount(lost', lost);
    if models != [] {
      DistinctCount(models);
      assert lost' != Names(models);
    }
  }

  /** Whatever a check does is a legal step of the channel's history. */
  lemma CheckIsStep(c: Check, models: seq<string>, add: seq<string>, failed: seq<string>, tested: seq<string>,
                    health: map<string, Health>, health': map<string, Health>, e: Entry)
    requires Clean(models) && SepFree(models, ',') && Clean(add) && Clean(tested) &&
             RemovalsOf(c, models, health, tested, failed)
    requires HealthStep(health, health', ResultsOf(tested, c.probe))
    requires var after := if c.autoApply then Reread(Target(models, add, failed)) else models;
             e == EntryOf(c, models, after, health, health', tested)
    ensures CheckStep(e)
  {
    if c.autoApply {
      DecidedModerate(c.policy, models, health, tested, c.probe, c.now);
      TargetModerate(models, add, failed);
      RereadKeeps(models, Target(models, add, failed));
      forall n | n in e.before && n !in e.after
        ensures e.mayRemove && n in e.results && e.results[n].Fault? && Failures(e.health, n) + 1 >= e.threshold
      {
        RemovalJustified(c, models, add, failed, health, tested, n);
      }
    } else {
      assert Names(models) - Names(models) == {};
    }
  }

  /** One check, entered in the channel's history. */
  method CheckAndRecord(ch: ChannelState, c: Check) returns (ghost e: Entry)
    modifies ch
    ensures CheckStep(e) && e.threshold == c.policy.threshold
    ensures e.before == Listed(old(ch.column)) && e.after == Listed(ch.column)
    ensures e.health == old(ch.health) && e.health' == ch.health
  {
    ghost var models, health := Listed(ch.column), ch.health;
    var run := new RunContext(c.budget);
    var staged, entries, add, failed, tested := CheckChannel(run, ch, c);
    e := EntryOf(c, models, Listed(ch.column), health, ch.health, tested);
    CheckIsStep(c, models, add, failed, tested, health, ch.health, e);
  }

  /** The history runs from one list to another, check by check. */
  predicate Spans(es: seq<Entry>, checks: seq<Check>, from: seq<string>, to: seq<string>) {
    && |es| == |checks|
    && if es == [] then from == to
       else
         var n := |es| - 1;
         es[n].after == to && es[n].threshold == checks[n].policy.threshold &&
           Spans(es[..n], checks[..n], from, es[n].before)
  }

  lemma SpansPush(es: seq<Entry>, checks: seq<Check>, from: seq<string>, e: Entry)
    requires checks != [] && Spans(es, checks[..|checks| - 1], from, e.before) &&
             e.threshold == checks[|checks| - 1].policy.threshold
    ensures Spans(es + [e], checks, from, e.after)
    ensures es != [] ==> e.before == es[|es| - 1].after
  {
    assert (es + [e])[..|es|] == es;
  }

  method RunLast(ch: ChannelState, checks: seq<Check>, ghost from: seq<string>, ghost before: seq<Entry>)
    returns (ghost es: seq<Entry>)
    requires checks != [] && Chronicle(before) && ch.health == HealthAfter(LifeOf(before))
    requires Spans(before, checks[..|checks| - 1], from, Listed(ch.column))
    modifies ch
    ensures Chronicle(es) && ch.health == HealthAfter(LifeOf(es))
    ensures Spans(es, checks, from, Listed(ch.column))
  {
    ghost var e := CheckAndRecord(ch, checks[|checks| - 1]);
    SpansPush(before, checks, from, e);
    ChroniclePush(before, e);
    es := before + [e];
  }

  /** The checks of a channel, one after the other, each with a budget of its own. */
  method RunChecks(ch: ChannelState, checks: seq<Check>) returns (ghost es: seq<Entry>)
    requires ch.health == map[]
    modifies ch
    ensures Chronicle(es) && ch.health == HealthAfter(LifeOf(es))
    ensures Spans(es, checks, Listed(old(ch.column)), Listed(ch.column))
  {
    if checks == [] {
      es := [];
    } else {
      es := RunChecks(ch, checks[..|checks| - 1]);
      es := RunLast(ch, checks, Listed(old(ch.column)), es);
    }
  }

  lemma {:induction false} ChronicleLegal(es: seq<Entry>)
    requires Chronicle(es)
    ensures Legal(LifeOf(es))
  {
    if es != [] {
      var init := es[..|es| - 1];
      ChronicleLegal(init);
      assert LifeOf(es)[..|es| - 1] == LifeOf(init);
    }
  }

  lemma HistoryOfLast(es: seq<Entry>)
    requires es != []
    ensures History(LifeOf(es)) == History(LifeOf(es[..|es| - 1])) + [es[|es| - 1].results]
  {}

  /**
   Over any number of checks, a model that leaves the list at the last of them had, by then,
   the threshold's worth of conclusive faults since its last success, one per run; and the
   last check was not one that may only add.
   */
  lemma EveryRemovalWasEarned(es: seq<Entry>, name: string)
    requires Chronicle(es) && es != []
    requires var e := es[|es| - 1]; name in e.before && name !in e.after
    ensures var e := es[|es| - 1]; e.mayRemove && Streak(History(LifeOf(es)), name) >= e.threshold
  {
    var init, e := es[..|es| - 1], es[|es| - 1];
    ChronicleLegal(init);
    assert Justified(e);
    FaultsAddUp(LifeOf(init), e.results, name);
    HistoryOfLast(es);
  }

  /** Over any number of checks a channel with models keeps some. */
  lemma {:induction false} NeverEmptied(es: seq<Entry>)
    requires Chronicle(es) && es != [] && es[0].before != []
    ensures es[|es| - 1].after != []
  {
    if |es| > 1 {
      NeverEmptied(es[..|es| - 1]);
    }
  }
}
