/**
 selectModelsForUpstreamValidation of controller/channel_upstream_update.go: which
 models one run confirms with a request of their own, under a budget, going round the served
 models by a sample at a time.
 */
module Selection {
  import opened Arithmetic
  import opened Text
  import opened NameLists

  /** dto.ModelHealthState; the recorded error text plays no part in any decision. */
  datatype Health = Health(failures: int, lastFailure: int)

  /** The retry delay of a recorded failure has passed. */
  predicate RetryDue(h: Health, delay: int, now: int) {
    !(h.lastFailure > 0 && now - h.lastFailure < delay)
  }

  function DueNames(health: map<string, Health>, delay: int, now: int): set<string> {
    set m | m in health && RetryDue(health[m], delay, now)
  }

  function StartOf(cursor: int, n: nat): nat
    requires n > 0
    ensures StartOf(cursor, n) < n
  {
    if cursor < 0 || cursor >= n then 0 else cursor
  }

  function SampleSize(sample: int, n: nat): nat {
    if sample <= 0 then 0 else if sample < n then sample else n
  }

  /** The models the rotation visits: s of them from start, wrapping around. */
  function Window(models: seq<string>, start: nat, s: nat): (r: seq<string>)
    requires models != []
    ensures |r| == s
    ensures forall i :: 0 <= i < s ==> r[i] == models[Advance(start, i, |models|)]
  {
    seq(s, i requires 0 <= i < s => models[Advance(start, i, |models|)])
  }

  datatype Inputs = Inputs(candidates: seq<string>, health: map<string, Health>, now: int, budget: int)

  /** The part of a plan in front of the rotation: candidates, then due failures. */
  function Urgent(models: seq<string>, delay: int, run: Inputs): seq<string> {
    Normalize(run.candidates) + Keep(models, DueNames(run.health, delay, run.now))
  }

  function Rotation(models: seq<string>, sample: int, cursor: int): seq<string> {
    if sample <= 0 || models == [] then []
    else Window(models, StartOf(cursor, |models|), SampleSize(sample, |models|))
  }

  function Take(s: seq<string>, n: int): (r: seq<string>)
    ensures r <= s
  {
    if n <= 0 then [] else if n < |s| then s[..n] else s
  }

  lemma TakeAll(s: seq<string>, n: int)
    ensures |s| <= n ==> Take(s, n) == s
  {}

  /** The first budget distinct names of the whole plan. */
  function Selected(models: seq<string>, delay: int, sample: int, cursor: int, run: Inputs): seq<string> {
    Take(Uniq(Urgent(models, delay, run) + Rotation(models, sample, cursor)), run.budget)
  }

  /** The budget is gone before the urgent part is through. */
  predicate CutShort(models: seq<string>, delay: int, run: Inputs) {
    var urgent := Urgent(models, delay, run);
    run.budget <= 0 || (urgent != [] && |Uniq(urgent[..|urgent| - 1])| >= run.budget)
  }

  function NextCursor(models: seq<string>, delay: int, sample: int, cursor: int, run: Inputs): int {
    if CutShort(models, delay, run) || sample <= 0 || models == [] then cursor
    else Advance(StartOf(cursor, |models|), SampleSize(sample, |models|), |models|)
  }

  // ---------------------------------------------------------------- the code

  /** appendModel: false once the selection is full. */
  method TryAppend(selected: seq<string>, seen: set<string>, name: string, budget: int, ghost done: seq<string>)
    returns (ok: bool, selected': seq<string>, seen': set<string>)
    requires selected == Uniq(done) && seen == Names(selected) && |selected| <= budget
    ensures ok == (|selected| < budget)
    ensures ok ==> selected' == Uniq(done + [name])
    ensures !ok ==> selected' == selected
    ensures seen' == Names(selected') && |selected'| <= budget
  {
    selected', seen' := selected, seen;
    if |selected| >= budget {
      return false, selected', seen';
    }
    assert (done + [name])[..|done + [name]| - 1] == done;
    if name !in seen {
      seen', selected' := seen + {name}, selected + [name];
    }
    return true, selected', seen';
  }

  lemma FullSelection(done: seq<string>, names: seq<string>, i: int, budget: int)
    requires 0 <= i < |names| && |Uniq(done + names[..i])| == budget
    ensures Take(Uniq(done + names), budget) == Uniq(done + names[..i])
    ensures |Uniq(done + names[..|names| - 1])| >= budget
  {
    var front := done + names[..i];
    assert done + names == front + names[i..];
    UniqPrefix(front, names[i..]);
    assert done + names[..|names| - 1] == front + names[i..|names| - 1];
    UniqPrefix(front, names[i..|names| - 1]);
  }

  /** Appends names in order until the selection is full. */
  method AppendAll(names: seq<string>, selected: seq<string>, seen: set<string>, budget: int, ghost done: seq<string>)
    returns (ok: bool, selected': seq<string>, seen': set<string>)
    requires selected == Uniq(done) && seen == Names(selected) && |selected| <= budget
    ensures ok ==> selected' == Uniq(done + names) && |selected'| <= budget
    ensures !ok ==> selected' == Take(Uniq(done + names), budget)
    ensures seen' == Names(selected')
    ensures ok <==> names == [] || |Uniq(done + names[..|names| - 1])| < budget
  {
    selected', seen', ok := selected, seen, true;
    assert Front(done, names, 0) == done;
    for i := 0 to |names|
      invariant selected' == Uniq(Front(done, names, i)) && seen' == Names(selected') && |selected'| <= budget
      invariant ok && (i > 0 ==> |Uniq(Front(done, names, i - 1))| < budget)
    {
      ok, selected', seen' := TryAppend(selected', seen', names[i], budget, Front(done, names, i));
      if !ok {
        FullSelection(done, names, i, budget);
        return;
      }
      FrontPush(done, names, i);
    }
    assert Front(done, names, |names|) == done + names;
  }

  ghost function Front(done: seq<string>, names: seq<string>, i: int): seq<string>
    requires 0 <= i <= |names|
  {
    done + names[..i]
  }

  lemma FrontPush(done: seq<string>, names: seq<string>, i: int)
    requires 0 <= i < |names|
    ensures Front(done, names, i) + [names[i]] == Front(done, names, i + 1)
  {}

  /** selectModelsForUpstreamValidation */
  method SelectForValidation(existing: seq<string>, delay: int, sample: int, cursor: int, run: Inputs)
    returns (selected: seq<string>, nextCursor: int)
    ensures selected == Selected(Normalize(existing), delay, sample, cursor, run)
    ensures nextCursor == NextCursor(Normalize(existing), delay, sample, cursor, run)
  {
    nextCursor, selected := cursor, [];
    var models := Normalize(existing);
    if run.budget <= 0 {
      return;
    }
    var urgent := Urgent(models, delay, run);
    var seen, ok;
    selected, seen, ok := AppendUrgent(urgent, run.budget);
    if !ok {
      CutShortSelection(urgent, Rotation(models, sample, cursor), run.budget);
      return;
    }
    TakeAll(Uniq(urgent), run.budget);
    if sample <= 0 || models == [] {
      assert urgent + [] == urgent;
      return;
    }
    var start := StartOf(cursor, |models|);
    var size := SampleSize(sample, |models|);
    var window := Window(models, start, size);
    assert window == Rotation(models, sample, cursor);
    ok, selected, seen := AppendAll(window, selected, seen, run.budget, urgent);
    TakeAll(Uniq(urgent + window), run.budget);
    nextCursor := Advance(start, size, |models|);
  }

  function Advance(start: nat, size: nat, n: nat): (next: nat)
    requires n > 0
    ensures next < n
  {
    (start + size) % n
  }

  method AppendUrgent(urgent: seq<string>, budget: int) returns (selected: seq<string>, seen: set<string>, ok: bool)
    requires budget > 0
    ensures ok <==> urgent == [] || |Uniq(urgent[..|urgent| - 1])| < budget
    ensures ok ==> selected == Uniq(urgent) && |selected| <= budget
    ensures !ok ==> selected == Take(Uniq(urgent), budget)
    ensures seen == Names(selected)
  {
    ok, selected, seen := AppendAll(urgent, [], {}, budget, []);
    assert [] + urgent == urgent;
    assert urgent != [] ==> [] + urgent[..|urgent| - 1] == urgent[..|urgent| - 1];
  }

  lemma CutShortSelection(urgent: seq<string>, rest: seq<string>, budget: int)
    requires urgent != [] && |Uniq(urgent[..|urgent| - 1])| >= budget
    ensures Take(Uniq(urgent + rest), budget) == Take(Uniq(urgent), budget)
  {
    var init, last := urgent[..|urgent| - 1], urgent[|urgent| - 1];
    assert init + [last] == urgent;
    UniqPrefix(init, [last]);
    UniqPrefix(urgent, rest);
    TakePrefix(Uniq(urgent), Uniq(urgent + rest), budget);
  }

  lemma TakePrefix(a: seq<string>, b: seq<string>, n: int)
    requires a <= b && n <= |a|
    ensures Take(b, n) == Take(a, n)
  {}

  // ---------------------------------------------------------------- what a selection is

  /** Duplicate-free, within budget, and drawn from the candidates and the served models. */
  lemma SelectionBounded(models: seq<string>, delay: int, sample: int, cursor: int, run: Inputs)
    ensures var selected := Selected(models, delay, sample, cursor, run);
            && Distinct(selected)
            && |selected| <= (if run.budget < 0 then 0 else run.budget)
            && Names(selected) <= Names(Normalize(run.candidates)) + Names(models)
  {
    var plan := Urgent(models, delay, run) + Rotation(models, sample, cursor);
    UniqDistinct(plan);
    UniqNames(plan);
    KeepNames(models, DueNames(run.health, delay, run.now));
    var rotation := Rotation(models, sample, cursor);
    forall x | x in rotation
      ensures x in models
    {
      var i :| 0 <= i < |rotation| && rotation[i] == x;
    }
    forall x | x in Selected(models, delay, sample, cursor, run)
      ensures x in Names(Normalize(run.candidates)) + Names(models)
    {
      assert x in Names(Uniq(plan));
      assert x in Names(plan);
      assert x in Normalize(run.candidates) || x in Names(Keep(models, DueNames(run.health, delay, run.now))) ||
             x in rotation;
    }
  }

  /** New candidates have the first claim on the budget. */
  lemma CandidatesComeFirst(models: seq<string>, delay: int, sample: int, cursor: int, run: Inputs)
    ensures Take(Normalize(run.candidates), run.budget) <= Selected(models, delay, sample, cursor, run)
  {
    var candidates, due := Normalize(run.candidates), Keep(models, DueNames(run.health, delay, run.now));
    var rotation := Rotation(models, sample, cursor);
    NormalizeCleans(run.candidates);
    UniqDistinct(candidates);
    FrontIsTaken(candidates, due + rotation, run.budget);
    assert candidates + (due + rotation) == Urgent(models, delay, run) + rotation;
  }

  /** Failures whose delay has passed have the second: only what is left goes to the rotation. */
  lemma DueFailuresComeNext(models: seq<string>, delay: int, sample: int, cursor: int, run: Inputs, x: string)
    requires x in models && x in run.health && RetryDue(run.health[x], delay, run.now)
    requires |Urgent(models, delay, run)| <= run.budget
    ensures x in Selected(models, delay, sample, cursor, run)
  {
    var urgent, due := Urgent(models, delay, run), Keep(models, DueNames(run.health, delay, run.now));
    FrontIsTaken(urgent, Rotation(models, sample, cursor), run.budget);
    KeepNames(models, DueNames(run.health, delay, run.now));
    assert x in Names(due);
    UniqNames(urgent);
    assert x in Names(Uniq(urgent)) by {
      assert x in urgent;
    }
  }

  /** The front of a plan is taken before the rest. */
  lemma FrontIsTaken(front: seq<string>, rest: seq<string>, budget: int)
    ensures Take(Uniq(front), budget) <= Take(Uniq(front + rest), budget)
    ensures |front| <= budget ==> Uniq(front) <= Take(Uniq(front + rest), budget)
  {
    UniqPrefix(front, rest);
    UniqNames(front);
  }

  lemma SelectionClean(models: seq<string>, delay: int, sample: int, cursor: int, run: Inputs)
    requires Clean(models)
    ensures Clean(Selected(models, delay, sample, cursor, run))
  {
    SelectionBounded(models, delay, sample, cursor, run);
    NormalizeCleans(run.candidates);
    forall x | x in Selected(models, delay, sample, cursor, run)
      ensures x != "" && Trimmed(x)
    {
      assert x in Names(Selected(models, delay, sample, cursor, run));
      assert x in Normalize(run.candidates) || x in models;
    }
  }

  /** Without health records and without a sample only candidates are selected. */
  lemma CandidatesOnlySelection(models: seq<string>, delay: int, cursor: int, run: Inputs)
    requires run.health == map[]
    ensures Selected(models, delay, 0, cursor, run) == Take(Normalize(run.candidates), run.budget)
  {
    KeepNone(models, DueNames(run.health, delay, run.now));
    NormalizeCleans(run.candidates);
    UniqDistinct(Normalize(run.candidates));
    assert Urgent(models, delay, run) + Rotation(models, 0, cursor) == Normalize(run.candidates);
  }

  // ---------------------------------------------------------------- fairness of the rotation

  /** The budget covers the candidates, the due failures and the sample. */
  predicate Ample(models: seq<string>, delay: int, sample: int, run: Inputs) {
    run.budget >= |Urgent(models, delay, run)| + SampleSize(sample, |models|) && run.budget > 0
  }

  /** The cursor a sequence of runs leaves behind. */
  function CursorAfter(models: seq<string>, delay: int, sample: int, cursor: int, runs: seq<Inputs>): int {
    if runs == [] then cursor
    else NextCursor(models, delay, sample, CursorAfter(models, delay, sample, cursor, runs[..|runs| - 1]),
                    runs[|runs| - 1])
  }

  lemma AmpleRun(models: seq<string>, delay: int, sample: int, cursor: int, run: Inputs)
    requires models != [] && sample > 0 && Ample(models, delay, sample, run)
    ensures forall x :: x in Rotation(models, sample, cursor) ==> x in Selected(models, delay, sample, cursor, run)
    ensures !CutShort(models, delay, run)
  {
    var urgent, rotation := Urgent(models, delay, run), Rotation(models, sample, cursor);
    UniqNames(urgent + rotation);
    forall x | x in rotation
      ensures x in Uniq(urgent + rotation)
    {
      assert x in Names(urgent + rotation);
      assert x in Names(Uniq(urgent + rotation));
    }
    if urgent != [] {
      UniqNames(urgent[..|urgent| - 1]);
    }
  }

  /** Where the rotation stands after k full samples. */
  function Turn(start: nat, k: nat, s: nat, n: nat): (r: nat)
    requires n > 0
    ensures r < n
  {
    (start + k * s) % n
  }

  lemma TurnStep(start: nat, k: nat, s: nat, n: nat)
    requires n > 0
    ensures Advance(Turn(start, k, s, n), s, n) == Turn(start, k + 1, s, n)
  {
    ModAdd(start + k * s, s, n);
    assert start + k * s + s == start + (k + 1) * s;
  }

  lemma DivBound(d: nat, s: nat, n: nat, rounds: nat)
    requires s > 0 && d < n <= rounds * s
    ensures d / s < rounds
    ensures d == (d / s) * s + d % s
  {
    var k := d / s;
    assert d == k * s + d % s;
  }

  /** Which run, and which place in its sample, reaches position x. */
  lemma TurnReaches(start: nat, s: nat, n: nat, x: nat, rounds: nat) returns (k: nat, i: nat)
    requires start < n && x < n && s > 0 && rounds * s >= n
    ensures k < rounds && i < s && Advance(Turn(start, k, s, n), i, n) == x
  {
    var d := Distance(start, x, n);
    DistanceReaches(start, x, n);
    DivBound(d, s, n, rounds);
    k, i := d / s, d % s;
    var here := start + k * s;
    ModAdd(here, i, n);
    assert here + i == start + d;
  }

  function Distance(start: nat, x: nat, n: nat): (d: nat)
    requires start < n && x < n
    ensures d < n
  {
    if x >= start then x - start else x - start + n
  }

  lemma DistanceReaches(start: nat, x: nat, n: nat)
    requires start < n && x < n
    ensures (start + Distance(start, x, n)) % n == x
  {
    ModSmall(x, n);
    ModOnce(x, n);
  }

  lemma {:induction false} CursorPosition(models: seq<string>, delay: int, sample: int, cursor: int, runs: seq<Inputs>)
    requires models != [] && sample > 0
    requires forall k :: 0 <= k < |runs| ==> !CutShort(models, delay, runs[k])
    ensures StartOf(CursorAfter(models, delay, sample, cursor, runs), |models|) ==
            Turn(StartOf(cursor, |models|), |runs|, SampleSize(sample, |models|), |models|)
  {
    var n, s, start := |models|, SampleSize(sample, |models|), StartOf(cursor, |models|);
    if runs == [] {
      assert Turn(start, 0, s, n) == start by { assert 0 * s == 0; }
    } else {
      var init := runs[..|runs| - 1];
      CursorPosition(models, delay, sample, cursor, init);
      assert !CutShort(models, delay, runs[|runs| - 1]);
      TurnStep(start, |init|, s, n);
    }
  }

  /**
   Rotation is fair: while the list is unchanged and every run can pay for its
   candidates, due failures and sample, any stretch of runs that samples n models in
   total selects every one of the n models, from any starting cursor.
   */
  lemma RotationReachesEveryModel(models: seq<string>, delay: int, sample: int, cursor: int, runs: seq<Inputs>, x: nat)
    returns (k: nat)
    requires x < |models| && sample > 0
    requires forall k :: 0 <= k < |runs| ==> Ample(models, delay, sample, runs[k])
    requires |runs| * SampleSize(sample, |models|) >= |models|
    ensures k < |runs|
    ensures models[x] in Selected(models, delay, sample, CursorAfter(models, delay, sample, cursor, runs[..k]), runs[k])
  {
    var n, s := |models|, SampleSize(sample, |models|);
    var i;
    k, i := TurnReaches(StartOf(cursor, n), s, n, x, |runs|);
    var before := CursorAfter(models, delay, sample, cursor, runs[..k]);
    forall j | 0 <= j < k
      ensures !CutShort(models, delay, runs[..k][j])
    {
      AmpleRun(models, delay, sample, cursor, runs[j]);
    }
    CursorPosition(models, delay, sample, cursor, runs[..k]);
    AmpleRun(models, delay, sample, before, runs[k]);
    assert Rotation(models, sample, before)[i] == models[x];
  }
}
