/**
 sweepChannelModels from end to end: candidates from the diff and from earlier removals,
 the passes, the decision, and the health records it leaves for later validation runs.
 */
module SweepChannel {
  import opened NameLists
  import opened Sweep
  import opened Text
  import UpstreamDiff
  import Selection
  import Validation
  import ModelUpdate

  /** Only an alias the channel serves covers its target. */
  function ActiveMapping(mapping: map<string, string>, existing: seq<string>): map<string, string> {
    map alias | alias in mapping && alias in existing :: mapping[alias]
  }

  /** What is tested beside the served models: pending additions, and models removed earlier. */
  method FindCandidates(existing: seq<string>, fetched: bool, upstream: seq<string>, mapping: map<string, string>,
                        strip: bool, recorded: seq<string>)
    returns (candidates: seq<string>, pending: map<string, string>)
    ensures Clean(candidates)
    ensures !fetched ==> candidates == Normalize(recorded) && pending == map[]
    ensures fetched ==>
      var diff := UpstreamDiff.DiffOf(Normalize(existing), Normalize(upstream), _ => false,
                                      ActiveMapping(mapping, existing), strip);
      candidates == Normalize(diff.add + recorded) && pending == diff.entries
  {
    var found: seq<string> := [];
    pending := map[];
    if fetched {
      var diff := UpstreamDiff.CollectPending(existing, upstream, _ => false, ActiveMapping(mapping, existing), strip);
      found, pending := diff.add, diff.entries;
    }
    assert [] + recorded == recorded;
    candidates := Normalize(found + recorded);
    NormalizeCleans(found + recorded);
  }

  /** The tests of a sweep, served models first. */
  method TestModels(existing: seq<string>, candidates: seq<string>, pending: map<string, string>, groupSize: int,
                    budget: int, world: World, live: nat -> bool)
    returns (names: seq<string>, verdicts: map<string, Verdict>, left: int, returned: bool, looks: nat)
    requires groupSize >= 1 && Clean(existing) && Clean(candidates) && Lasting(live)
    ensures names == existing + Drop(candidates, Names(existing))
    ensures verdicts.Keys <= Names(existing) + Names(candidates)
    ensures budget >= 0 ==> 0 <= left <= budget
    ensures forall n :: n in verdicts && verdicts[n].Fail? ==> EveryKeyFailed(world, n)
    ensures live(looks) ==> !returned
    ensures live(looks) && left > 0 ==>
            verdicts.Keys == Names(existing) + Names(candidates) && AllResolved(verdicts, world)
  {
    var items := BuildItems(existing, candidates, pending);
    names := AdoptNames(items);
    DropNames(candidates, Names(existing));
    ConcatDistinct(existing, Drop(candidates, Names(existing)));
    assert Names(names) == Names(existing) + (Names(candidates) - Names(existing));
    var first, log;
    verdicts, left, first, log, returned, looks := RunPasses(names, groupSize, budget, world, live);
    FailuresAreFull(first, verdicts, log, world);
  }

  lemma FailuresAreFull(first: map<string, Verdict>, verdicts: map<string, Verdict>, log: seq<string>, world: World)
    requires AllPassedOver(first, verdicts, log, world)
    ensures forall n :: n in verdicts && verdicts[n].Fail? ==> EveryKeyFailed(world, n)
  {
    forall n | n in verdicts && verdicts[n].Fail?
      ensures EveryKeyFailed(world, n)
    {
      assert PassedOver(first, verdicts, log, world, n);
      var r :| 0 <= r < 3 && verdicts[n] == Probed(world, r, n);
      OpinionMeaning(world(r, n));
      assert FailsEverywhere(world(r, n));
    }
  }

  /**
   sweepChannelModels, without the row lock and the write. A sweep whose context is done at the
   end changes nothing. Any other was never cancelled: it removes a model only when every
   enabled key failed for it, and while it has budget to spare it removes and adopts by the
   first resolved verdict of every model.
   */
  method SweepModels(models: seq<string>, candidates: seq<string>, pending: map<string, string>, groupSize: int,
                     budget: int, world: World, live: nat -> bool)
    returns (next: seq<string>, added: seq<string>, removed: seq<string>, unverified: seq<string>,
             verdicts: map<string, Verdict>, left: int, looks: nat)
    requires groupSize >= 1 && Clean(candidates) && Lasting(live)
    ensures budget >= 0 ==> 0 <= left <= budget
    ensures !live(looks) ==> next == Normalize(models) && added == [] && removed == []
    ensures live(looks) ==> Outcome(Normalize(models), candidates, verdicts, next, added, removed, unverified)
    ensures forall n :: n in removed ==> EveryKeyFailed(world, n)
    ensures live(looks) && left > 0 ==>
      verdicts.Keys == Names(Normalize(models)) + Names(candidates) && AllResolved(verdicts, world)
  {
    var existing := Normalize(models);
    NormalizeCleans(models);
    NormalizeCleans(existing);
    NormalizeCleans(candidates);
    var names, returned;
    names, verdicts, left, returned, looks := TestModels(existing, candidates, pending, groupSize, budget, world, live);
    var incomplete, inconclusive;
    unverified, incomplete, inconclusive := CountOutcome(names, verdicts);
    if returned || !live(looks) {
      next, added, removed := existing, [], [];
      return;
    }
    next, added, removed := ComputeSwept(existing, candidates, verdicts);
    SweepOutcome(existing, candidates, verdicts, next, added, removed);
    KeepNames(existing, With(verdicts, Fail));
    forall n | n in removed
      ensures EveryKeyFailed(world, n)
    {
      assert n in Names(removed);
    }
  }

  // ---------------------------------------------------------------- what it leaves behind

  /** A sweep verdict as evidence about the model. */
  function Evidence(v: Verdict): Validation.Verdict {
    match v
    case Pass => Validation.Success
    case Fail => Validation.Fault
    case _ => Validation.Inconclusive
  }

  function EvidenceOf(verdicts: map<string, Verdict>): ModelUpdate.Results {
    map m | m in verdicts :: Evidence(verdicts[m])
  }

  /** The names of the rewritten column, as they are split, untrimmed. */
  function Remaining(next: seq<string>): set<string> {
    Names(ReadList(Join(next, ','), ','))
  }

  /**
   ApplyChannelModelSweep: the old column's names are compared as they are split, so one with
   white space around it counts as removed.
   */
  function HealthApplied(health: map<string, Selection.Health>, stored: seq<string>, next: seq<string>, now: int)
    : map<string, Selection.Health>
  {
    ModelUpdate.Swept(health, Remaining(next), Names(stored) - Remaining(next), now)
  }

  /** The records a validation run can come across: it only looks up trimmed names. */
  function Visible(health: map<string, Selection.Health>): map<string, Selection.Health> {
    map m | m in health && m != "" && Trimmed(m) :: health[m]
  }

  predicate PlainNames(health: map<string, Selection.Health>) {
    forall m :: m in health ==> ',' !in m && health[m].failures >= 0
  }

  lemma NextRemains(next: seq<string>, name: string)
    requires name in next && name != "" && ',' !in name
    ensures name in Remaining(next)
  {
    PartsSurvive(next, ',', name);
  }

  /**
   The single failure a sweep records for each model it removes never runs ahead of the
   evidence, so a later validation run still needs the rest of its threshold.
   */
  lemma SweepWithinStreak(health: map<string, Selection.Health>, stored: seq<string>, candidates: seq<string>,
                          verdicts: map<string, Verdict>, next: seq<string>, added: seq<string>, removed: seq<string>,
                          now: int)
    requires PlainNames(health) && SepFree(stored, ',') && Clean(candidates)
    requires var existing := Normalize(stored);
             && verdicts.Keys <= Names(existing) + Names(candidates)
             && removed == Keep(existing, With(verdicts, Fail))
             && added == Keep(Drop(candidates, Names(existing)), With(verdicts, Pass))
             && next == Drop(existing, With(verdicts, Fail)) + added
    ensures ModelUpdate.HealthStep(Visible(health), Visible(HealthApplied(health, stored, next, now)),
                                   EvidenceOf(verdicts))
    ensures PlainNames(HealthApplied(health, stored, next, now))
  {
    var existing, results, after := Normalize(stored), EvidenceOf(verdicts), HealthApplied(health, stored, next, now);
    NormalizeCleans(stored);
    SweepNames(existing, candidates, verdicts, next, added, removed);
    forall m | m in Visible(after)
      ensures if m in results && results[m].Fault?
              then after[m].failures <= ModelUpdate.Failures(Visible(health), m) + 1
              else
                && m in Visible(health) && after[m].failures == health[m].failures
                && !(m in results && results[m].Success?)
    {
      if m in stored && m !in Remaining(next) {
        StoredIsRemoved(stored, verdicts, next, removed, m);
      } else {
        PassedRemains(existing, candidates, verdicts, next, m);
      }
    }
  }

  /** A trimmed name that is gone from the column had the verdict Fail. */
  lemma StoredIsRemoved(stored: seq<string>, verdicts: map<string, Verdict>, next: seq<string>, removed: seq<string>,
                        m: string)
    requires SepFree(stored, ',') && m in stored && m != "" && Trimmed(m) && m !in Remaining(next)
    requires Names(removed) == Names(Normalize(stored)) * With(verdicts, Fail)
    requires Names(Normalize(stored)) - Names(removed) <= Names(next)
    ensures m in verdicts && verdicts[m] == Fail
  {
    TrimSpaceFixes(m);
    NormalizeNames(stored, m);
    assert m in Names(Normalize(stored));
    if m in next {
      NextRemains(next, m);
    }
  }

  lemma PassedRemains(existing: seq<string>, candidates: seq<string>, verdicts: map<string, Verdict>, next: seq<string>,
                      m: string)
    requires verdicts.Keys <= Names(existing) + Names(candidates) && m != "" && ',' !in m
    requires Names(existing) - With(verdicts, Fail) <= Names(next)
    requires (Names(candidates) - Names(existing)) * With(verdicts, Pass) <= Names(next)
    ensures m in verdicts && verdicts[m] == Pass ==> m in Remaining(next)
  {
    if m in verdicts && verdicts[m] == Pass {
      assert m in With(verdicts, Pass) && m !in With(verdicts, Fail);
      assert m in Names(next);
      NextRemains(next, m);
    }
  }

  /** A name with white space around it is recorded with one failure by every sweep, whatever was found out. */
  lemma PaddedNameRecorded(health: map<string, Selection.Health>, stored: seq<string>, next: seq<string>, m: string,
                           now: int)
    requires m in stored && !Trimmed(m) && Clean(next) && SepFree(next, ',')
    ensures var after := HealthApplied(health, stored, next, now);
            m in after && after[m] == Selection.Health(1, now) && m !in Visible(after)
  {
    if next != [] {
      assert next[0] in next && next[|next| - 1] in next;
      StorageRoundTrip(next, ',');
    }
    assert m !in Remaining(next) && m in Names(stored);
  }

  /** Nothing is lost by looking at the visible records only: a check is the same legal step there. */
  lemma ChecksSeeVisible(e: ModelUpdate.Entry)
    requires ModelUpdate.CheckStep(e) && Clean(e.before)
    ensures ModelUpdate.CheckStep(e.(health := Visible(e.health), health' := Visible(e.health')))
  {
    var e' := e.(health := Visible(e.health), health' := Visible(e.health'));
    forall n | n in e.before && n !in e.after
      ensures ModelUpdate.Failures(e'.health, n) == ModelUpdate.Failures(e.health, n)
    {}
    assert ModelUpdate.HealthStep(e'.health, e'.health', e'.results);
  }
}
