/**
 Disable times and reasons of a multi-key channel: when they belong to a disabled key only, and
 the actions after which an enabled key shows them.
 */
module MultiKeyNotes {
  import opened MultiKey
  import opened MultiKeyRefinement
  import opened NameLists
  import opened Text
  import opened Wrappers

  // ---------------------------------------------------------------- stale times and reasons

  /** Disable times and reasons exist only for keys that are not enabled. */
  predicate Tidy(recs: seq<Record>) {
    forall i :: 0 <= i < |recs| && recs[i].status == ENABLED ==> recs[i] == Fresh(recs[i].key)
  }

  predicate Restores(a: Action) {
    a.Mark? && a.status == ENABLED
  }

  lemma {:induction false} SurvivorsTidy(recs: seq<Record>)
    ensures Tidy(Survivors(recs))
  {
    if recs != [] {
      SurvivorsTidy(recs[..|recs| - 1]);
    }
  }

  /** Every management action, and every automatic disable, keeps the list tidy. */
  lemma StepTidy(recs: seq<Record>, a: Action)
    requires Tidy(recs) && !Restores(a)
    ensures Tidy(Plain(recs, a))
  {
    if a.DeleteAuto? {
      SurvivorsTidy(recs);
    }
  }

  lemma {:induction false} RunTidy(recs: seq<Record>, acts: seq<Action>)
    requires Tidy(recs) && forall i :: 0 <= i < |acts| ==> !Restores(acts[i])
    ensures Tidy(PlainRun(recs, acts))
    decreases |acts|
  {
    if acts != [] {
      StepTidy(recs, acts[0]);
      RunTidy(Plain(recs, acts[0]), acts[1..]);
    }
  }

  /**
   Restoring a key from the relay drops its status only: the list stays tidy exactly
   when the key had neither a time nor a reason on record.
   */
  lemma RestoreTidyExactly(recs: seq<Record>, key: string, reason: string, now: int)
    requires Tidy(recs)
    ensures var i := FirstIndex(KeyList(recs), key);
            Tidy(Plain(recs, Mark(key, ENABLED, reason, now)))
            <==> i < 0 || (recs[i].time == None && recs[i].reason == None)
  {
    var i := FirstIndex(KeyList(recs), key);
    if i >= 0 {
      var after := Plain(recs, Mark(key, ENABLED, reason, now));
      assert after[i] == recs[i].(status := ENABLED);
      assert forall k :: 0 <= k < |recs| && k != i ==> after[k] == recs[k];
    }
  }

  /** So a key disabled by hand can show the reason of an earlier automatic disable. */
  lemma StaleReasonShown(now: int, later: int)
    ensures var disabled := Plain([Fresh("k")], Mark("k", AUTO_DISABLED, "401", now));
            var restored := Plain(disabled, Mark("k", ENABLED, "", later));
            Plain(restored, Disable(0)) == [Record("k", MANUALLY_DISABLED, Some(now), Some("401"))]
  {
    assert FirstIndex(["k"], "k") == 0;
    assert KeyList([Fresh("k")]) == ["k"];
    var disabled := [Record("k", AUTO_DISABLED, Some(now), Some("401"))];
    assert Plain([Fresh("k")], Mark("k", AUTO_DISABLED, "401", now)) == disabled;
    assert KeyList(disabled) == ["k"];
    var restored := [Record("k", ENABLED, Some(now), Some("401"))];
    assert Plain(disabled, Mark("k", ENABLED, "", later)) == restored;
  }

  // ---------------------------------------------------------------- on the stored row

  /**
   Over every safe run without a relay restore the stored row stays tidy: what it reads as has
   times and reasons only for keys that are not enabled.
   */
  lemma SafeRunTidy(row: Row, acts: seq<Action>)
    requires InRange(row) && Tidy(Records(row)) && SafeRun(Records(row), acts)
    requires forall i :: 0 <= i < |acts| ==> !Restores(acts[i])
    ensures Tidy(Records(Run(row, acts)))
  {
    RunRefines(row, acts);
    RunTidy(Records(row), acts);
  }

  /** Every time and reason, past the end of the list included, is that of a disabled key. */
  predicate Backed(row: Row) {
    row.time.Keys + row.reason.Keys <= row.status.Keys
  }

  /** What every save leaves: a counted list, and status entries inside it for disabled keys only. */
  predicate Counted(row: Row) {
    row.size == |KeysOf(row)| && Below(row.status, row.size) && forall i :: i in row.status ==> row.status[i] != ENABLED
  }

  /** On the rows the refinement is about that is the same as a tidy list. */
  lemma BackedIsTidy(row: Row)
    ensures Counted(row) && Backed(row) <==> InRange(row) && Tidy(Records(row))
  {
    if InRange(row) && Tidy(Records(row)) {
      forall i | i in row.time || i in row.reason
        ensures i in row.status
      {
        assert Records(row)[i] == RecordAt(row, KeysOf(row)[i], i);
      }
    }
  }

  /** How many lines are read back once these keys are written; a blank column keeps the old one. */
  function LinesLeft(row: Row, keys: seq<string>): nat {
    if Join(keys, '\n') == "" then |KeysOf(row)| else |Inner(keys)|
  }

  /** Each time and reason is carried to a line that is there when the column is read back. */
  predicate Lands(row: Row, drop: set<int>) {
    var src := Others(|KeysOf(row)|, drop);
    forall j :: 0 <= j < |src| && (src[j] in row.time || src[j] in row.reason) ==>
      j < LinesLeft(row, Pick(KeysOf(row), src))
  }

  /**
   The actions that leave no time or reason behind: a restore of a key without them, and a
   delete that carries none past the lines read back.
   */
  predicate Clears(row: Row, a: Action) {
    match a
    case Delete(i) => 0 <= i < row.size && row.size > 1 ==> Lands(row, {i})
    case DeleteAuto => SomeAuto(Records(row)) ==> Lands(row, AutoDisabled(row.status))
    case Mark(key, status, _, _) =>
      var i := FirstIndex(KeysOf(row), key);
      status == ENABLED && i >= 0 ==> i !in row.time && i !in row.reason
    case _ => true
  }

  lemma SavedCounted(row: Row, text: string, n: Notes)
    requires forall i :: i in n.status ==> 0 <= i && n.status[i] != ENABLED
    ensures Counted(SavedWith(row, text, n))
  {}

  lemma SavedLines(row: Row, src: seq<int>, n: Notes)
    requires forall j :: 0 <= j < |src| ==> 0 <= src[j] < |KeysOf(row)|
    ensures var keys := Pick(KeysOf(row), src);
            SavedWith(row, Join(keys, '\n'), n).size == LinesLeft(row, keys)
  {
    var keys := Pick(KeysOf(row), src);
    PickedSepFree(row, src);
    if keys != [] {
      ReadsInner(keys, '\n');
    }
  }

  lemma CarriedBacked(row: Row, n: Notes, drop: set<int>)
    requires Counted(row) && Backed(row) && n.time == row.time && n.reason == row.reason && n.status == row.status
    ensures var src := Others(|KeysOf(row)|, drop);
            var row' := SavedWith(row, Join(Pick(KeysOf(row), src), '\n'), CarryNotes(n, src));
            Counted(row') && (Backed(row') <==> Lands(row, drop))
  {
    var src := Others(|KeysOf(row)|, drop);
    var row' := SavedWith(row, Join(Pick(KeysOf(row), src), '\n'), CarryNotes(n, src));
    SavedLines(row, src, CarryNotes(n, src));
    SavedCounted(row, Join(Pick(KeysOf(row), src), '\n'), CarryNotes(n, src));
    if Lands(row, drop) {
      forall j | j in row'.time || j in row'.reason
        ensures j in row'.status
      {
        assert src[j] in row.time || src[j] in row.reason;
      }
    } else {
      var j :| 0 <= j < |src| && (src[j] in row.time || src[j] in row.reason) &&
          j >= LinesLeft(row, Pick(KeysOf(row), src));
      assert j in row'.time || j in row'.reason;
    }
  }

  /** With nothing on record about an enabled key, both deletes carry all of it. */
  lemma AllNotesKept(row: Row)
    requires Counted(row) && Backed(row)
    ensures KeptNotes(row) == NotesOf(row) == DisabledNotes(row)
  {
    AllDisabled(row.status);
    AllKept(row.time, row.status.Keys);
    AllKept(row.reason, row.status.Keys);
  }

  lemma AllDisabled(status: map<int, int>)
    requires forall i :: i in status ==> status[i] != ENABLED
    ensures Disabled(status) == status
  {
    forall i | i in status
      ensures i in Disabled(status)
    {}
  }

  lemma AllKept<T>(m: map<int, T>, keys: set<int>)
    requires m.Keys <= keys
    ensures Restrict(m, keys) == m
  {}

  lemma DeleteBacked(row: Row, i: int)
    requires Counted(row) && Backed(row)
    ensures Counted(AfterDelete(row, i)) && (Backed(AfterDelete(row, i)) <==> Clears(row, Delete(i)))
  {
    if 0 <= i < row.size {
      OthersOne(row.size, i);
      AllNotesKept(row);
      CarriedBacked(row, NotesOf(row), {i});
    }
  }

  lemma DeleteAutoBacked(row: Row)
    requires Counted(row) && Backed(row)
    ensures Counted(AfterDeleteAuto(row)) && (Backed(AfterDeleteAuto(row)) <==> Clears(row, DeleteAuto))
  {
    BackedIsTidy(row);
    AutoCounts(row);
    OthersCount(row.size, AutoDisabled(row.status));
    AllNotesKept(row);
    CarriedBacked(row, NotesOf(row), AutoDisabled(row.status));
  }

  /** An append never shortens the list. */
  lemma AppendBacked(row: Row, input: string)
    requires Counted(row) && Backed(row)
    ensures Counted(AfterAppend(row, input)) && Backed(AfterAppend(row, input))
  {
    if row.text == "" {
      assert row.size == 0;
    } else {
      AppendGrows(row, input);
      GrownBacked(row, Join(KeysOf(row) + NewKeys(KeysOf(row), input), '\n'));
    }
  }

  lemma GrownBacked(row: Row, text: string)
    requires Counted(row) && Backed(row)
    requires text != "" ==> |ReadList(text, '\n')| >= row.size
    ensures var row' := Saved(row, text, row.status, row.time, row.reason); Counted(row') && Backed(row')
  {}

  lemma AppendGrows(row: Row, input: string)
    requires row.text != ""
    ensures var text := Join(KeysOf(row) + NewKeys(KeysOf(row), input), '\n');
            text != "" ==> |ReadList(text, '\n')| >= |KeysOf(row)|
  {
    var keys, added := KeysOf(row), NewKeys(KeysOf(row), input);
    ReadListShape(row.text, '\n');
    NewKeysClean(keys, input);
    ReadsInner(keys + added, '\n');
    AppendLines(keys, added);
  }

  lemma AppendLines(keys: seq<string>, added: seq<string>)
    requires keys == [""] || (keys != [] && keys[0] != "" && keys[|keys| - 1] != "")
    requires "" !in added
    ensures |Inner(keys + added)| >= |keys|
  {
    var all := keys + added;
    if added == [] {
      assert all == keys;
    } else {
      assert all[|all| - 1] in added;
      if keys == [""] {
        assert all[1..] == added;
        assert added[0] in added;
      }
    }
  }

  lemma ReplaceBacked(row: Row, text: string)
    requires Counted(row) && Backed(row)
    ensures Counted(AfterReplace(row, text)) && Backed(AfterReplace(row, text))
  {
    if text != "" {
      ReplaceRow(row, text);
    }
  }

  lemma DisableAllBacked(row: Row)
    requires Counted(row) && Backed(row)
    ensures Counted(AfterDisableAll(row)) && Backed(AfterDisableAll(row))
  {
    ClosedBelow(row.status, row.size);
    forall i | i in row.status
      ensures i in ClosedStatus(row.status, row.size)
    {
      ClosedStatusAt(row.status, row.size, i);
    }
  }

  /**
   One action on a stored row where every time and reason is that of a disabled key: it stays
   that way exactly unless the action restores a key that has one, or is a delete that carries
   one past the lines read back.
   */
  lemma StepBacked(row: Row, a: Action)
    requires Counted(row) && Backed(row)
    ensures Counted(Step(row, a)) && (Backed(Step(row, a)) <==> Clears(row, a))
  {
    match a
    case Delete(i) => DeleteBacked(row, i);
    case DeleteAuto => DeleteAutoBacked(row);
    case Append(input) => AppendBacked(row, input);
    case Replace(text) => ReplaceBacked(row, text);
    case DisableAll => DisableAllBacked(row);
    case Mark(key, status, reason, now) => MarkBacked(row, key, status, reason, now);
    case _ =>
  }

  lemma MarkBacked(row: Row, key: string, status: int, reason: string, now: int)
    requires Counted(row) && Backed(row)
    ensures Counted(AfterMark(row, key, status, reason, now))
    ensures Backed(AfterMark(row, key, status, reason, now)) <==> Clears(row, Mark(key, status, reason, now))
  {
    var i := FirstIndex(KeysOf(row), key);
    if i >= 0 && status == ENABLED {
      var row' := AfterMark(row, key, status, reason, now);
      assert i !in row'.status && row'.time == row.time && row'.reason == row.reason;
    }
  }

  predicate ClearsAll(row: Row, acts: seq<Action>)
    decreases |acts|
  {
    acts == [] || (Clears(row, acts[0]) && ClearsAll(Step(row, acts[0]), acts[1..]))
  }

  /** Over any run on the stored row, safe or not: at no moment exactly when no action leaves one behind in its turn. */
  lemma {:induction false} RunBacked(row: Row, acts: seq<Action>)
    requires Counted(row) && Backed(row)
    ensures (forall n :: 0 <= n <= |acts| ==> Backed(Run(row, acts[..n]))) <==> ClearsAll(row, acts)
    decreases |acts|
  {
    if acts == [] {
      assert forall n :: 0 <= n <= |acts| ==> acts[..n] == [];
    } else {
      var row', rest := Step(row, acts[0]), acts[1..];
      StepBacked(row, acts[0]);
      forall n | 1 <= n <= |acts|
        ensures Run(row, acts[..n]) == Run(row', rest[..n - 1])
      {
        assert acts[..n][1..] == rest[..n - 1];
      }
      assert acts[..0] == [] && rest[..0] == [];
      assert Run(row, acts[..1]) == Run(row', rest[..0]) == row';
      if Clears(row, acts[0]) {
        RunBacked(row', rest);
        RunShift(row, acts);
      }
    }
  }

  lemma RunShift(row: Row, acts: seq<Action>)
    requires acts != [] && Backed(row)
    ensures (forall n :: 0 <= n <= |acts| ==> Backed(Run(row, acts[..n]))) <==>
            (forall n :: 0 <= n < |acts| ==> Backed(Run(Step(row, acts[0]), acts[1..][..n])))
  {
    var row', rest := Step(row, acts[0]), acts[1..];
    forall n | 0 <= n < |acts|
      ensures Run(row, acts[..n + 1]) == Run(row', rest[..n])
    {
      assert acts[..n + 1][1..] == rest[..n];
    }
    assert acts[..0] == [];
    if forall n :: 0 <= n < |acts| ==> Backed(Run(row', rest[..n])) {
      forall n | 0 <= n <= |acts|
        ensures Backed(Run(row, acts[..n]))
      {
        if n > 0 {
          assert Run(row, acts[..n - 1 + 1]) == Run(row', rest[..n - 1]);
        }
      }
    }
  }

  // ---------------------------------------------------------------- a new key with an old reason

  lemma CarriedUp<T>(m: map<int, T>, v: T, src: seq<int>)
    requires src == [1, 2] && m == map[2 := v]
    ensures Carry(m, src) == map[1 := v]
  {}

  lemma SavedShort(row: Row, b: string, n: Notes)
    requires b != "" && '\n' !in b && n.status.Keys == {1}
    ensures var row' := SavedWith(row, Join(["", b], '\n'), n);
            KeysOf(row') == [b] && row'.text != "" && row'.status == map[] && row'.time == n.time &&
              row'.reason == n.reason
  {
    LeadingBlankLost(b);
  }

  /** Deleting the first of a, blank line, b leaves b alone, and what was recorded for it one line too far. */
  lemma DeleteLeavesNotes(row: Row, b: string, t: int, r: string)
    requires |KeysOf(row)| == row.size == 3 && KeysOf(row)[1] == "" && KeysOf(row)[2] == b && b != ""
    requires row.status == map[2 := AUTO_DISABLED] && row.time == map[2 := t] && row.reason == map[2 := r]
    ensures var row' := AfterDelete(row, 0);
            && KeysOf(row') == [b] && row'.text != ""
            && row'.status == map[] && row'.time == map[1 := t] && row'.reason == map[1 := r]
  {
    var src := [1, 2];
    AllDisabled(row.status);
    CarriedUp(row.status, AUTO_DISABLED, src);
    CarriedUp(row.time, t, src);
    CarriedUp(row.reason, r, src);
    DeleteFirstOfThree(row, b, CarryNotes(KeptNotes(row), src));
  }

  lemma DeleteFirstOfThree(row: Row, b: string, n: Notes)
    requires |KeysOf(row)| == row.size == 3 && KeysOf(row)[1] == "" && KeysOf(row)[2] == b && b != ""
    requires n == CarryNotes(KeptNotes(row), [1, 2]) && n.status.Keys == {1}
    ensures var row' := AfterDelete(row, 0);
            KeysOf(row') == [b] && row'.text != "" && row'.status == map[] && row'.time == n.time &&
              row'.reason == n.reason
  {
    ReadListShape(row.text, '\n');
    assert b in KeysOf(row);
    DeleteFirst(row);
    assert KeysOf(row)[1..] == ["", b];
    SavedShort(row, b, n);
  }

  lemma OneNewKey(b: string, c: string)
    requires c != "" && Trimmed(c) && '\n' !in c && TrimSpace(b) != c
    ensures NewKeys([b], c) == [c]
  {
    SplitPart(c, '\n');
    Singleton(c);
    assert c !in TrimmedKeys([b]);
    DropOne(c, TrimmedKeys([b]));
  }

  lemma AppendMeetsNotes(row: Row, b: string, c: string, t: int, r: string)
    requires KeysOf(row) == [b] && row.text != "" && b != ""
    requires row.status == map[] && row.time == map[1 := t] && row.reason == map[1 := r]
    requires c != "" && Trimmed(c) && '\n' !in c && TrimSpace(b) != c
    ensures Records(AfterAppend(row, c)) == [Fresh(b), Record(c, ENABLED, Some(t), Some(r))]
  {
    OneNewKey(b, c);
    ReadListShape(row.text, '\n');
    assert b in KeysOf(row);
    StorageRoundTrip([b] + [c], '\n');
    JoinFirst([b] + [c], '\n');
  }

  lemma NotedRow(a: string, b: string, t: int, r: string) returns (row: Row)
    requires a != "" && '\n' !in a && b != "" && '\n' !in b
    ensures KeysOf(row) == [a, "", b] && row.size == 3
    ensures row.status == map[2 := AUTO_DISABLED] && row.time == map[2 := t] && row.reason == map[2 := r]
    ensures InRange(row) && Tidy(Records(row))
  {
    row := Row(Join([a, "", b], '\n'), 3, map[2 := AUTO_DISABLED], map[2 := t], map[2 := r]);
    BlankLineStored(a, b, row);
    BackedIsTidy(row);
  }

  lemma RunOfTwo(row: Row, a: Action, b: Action)
    ensures Run(row, [a, b]) == Step(Step(row, a), b)
  {
    assert [a, b][1..] == [b] && [b][1..] == [];
    assert Run(Step(row, a), [b]) == Run(Step(Step(row, a), b), []);
  }

  /**
   So a brand-new key can be enabled and show the time and the reason of another key: in the
   column a, blank line, b with b automatically disabled, delete a and append c.
   */
  lemma NewKeyShowsOldReason(a: string, b: string, c: string, t: int, r: string) returns (row: Row)
    requires a != "" && '\n' !in a && b != "" && '\n' !in b
    requires c != "" && Trimmed(c) && '\n' !in c && TrimSpace(b) != c
    ensures InRange(row) && KeysOf(row) == [a, "", b] && Tidy(Records(row))
    ensures Records(Run(row, [Delete(0), Append(c)])) == [Fresh(b), Record(c, ENABLED, Some(t), Some(r))]
  {
    row := NotedRow(a, b, t, r);
    DeleteThenAppendRun(row, b, c, t, r);
  }

  lemma DeleteThenAppendRun(row: Row, b: string, c: string, t: int, r: string)
    requires |KeysOf(row)| == row.size == 3 && KeysOf(row)[1] == "" && KeysOf(row)[2] == b && b != ""
    requires row.status == map[2 := AUTO_DISABLED] && row.time == map[2 := t] && row.reason == map[2 := r]
    requires c != "" && Trimmed(c) && '\n' !in c && TrimSpace(b) != c
    ensures Records(Run(row, [Delete(0), Append(c)])) == [Fresh(b), Record(c, ENABLED, Some(t), Some(r))]
  {
    DeleteThenAppend(row, b, c, t, r);
    RunShows(row, c, [Fresh(b), Record(c, ENABLED, Some(t), Some(r))]);
  }

  lemma RunShows(row: Row, c: string, want: seq<Record>)
    requires Records(AfterAppend(AfterDelete(row, 0), c)) == want
    ensures Records(Run(row, [Delete(0), Append(c)])) == want
  {
    RunOfTwo(row, Delete(0), Append(c));
  }

  lemma DeleteThenAppend(row: Row, b: string, c: string, t: int, r: string)
    requires |KeysOf(row)| == row.size == 3 && KeysOf(row)[1] == "" && KeysOf(row)[2] == b && b != ""
    requires row.status == map[2 := AUTO_DISABLED] && row.time == map[2 := t] && row.reason == map[2 := r]
    requires c != "" && Trimmed(c) && '\n' !in c && TrimSpace(b) != c
    ensures Records(AfterAppend(AfterDelete(row, 0), c)) == [Fresh(b), Record(c, ENABLED, Some(t), Some(r))]
  {
    DeleteLeavesNotes(row, b, t, r);
    AppendMeetsNotes(AfterDelete(row, 0), b, c, t, r);
  }
}
