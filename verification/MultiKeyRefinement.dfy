/**
 The sparse maps of a multi-key channel refine a plain list of key records, action by
 action and over whole runs; and the exact inputs on which they do not.
 */
module MultiKeyRefinement {
  import opened MultiKey
  import opened NameLists
  import opened Text
  import opened Wrappers

  datatype Action =
    | Disable(i: int)
    | Enable(i: int)
    | EnableAll
    | DisableAll
    | Delete(i: int)
    | DeleteAuto
    | Append(input: string)
    | Replace(text: string)
    | Mark(key: string, status: int, reason: string, now: int)

  function Step(row: Row, a: Action): Row {
    match a
    case Disable(i) => AfterDisable(row, i)
    case Enable(i) => AfterEnable(row, i)
    case EnableAll => AfterEnableAll(row)
    case DisableAll => AfterDisableAll(row)
    case Delete(i) => AfterDelete(row, i)
    case DeleteAuto => AfterDeleteAuto(row)
    case Append(input) => AfterAppend(row, input)
    case Replace(text) => AfterReplace(row, text)
    case Mark(key, status, reason, now) => AfterMark(row, key, status, reason, now)
  }

  // ---------------------------------------------------------------- the plain list

  function KeyList(recs: seq<Record>): (keys: seq<string>)
    ensures |keys| == |recs|
    ensures forall i :: 0 <= i < |keys| ==> keys[i] == recs[i].key
  {
    seq(|recs|, i requires 0 <= i < |recs| => recs[i].key)
  }

  function FreshAll(keys: seq<string>): (recs: seq<Record>)
    ensures |recs| == |keys|
    ensures forall i :: 0 <= i < |recs| ==> recs[i] == Fresh(keys[i])
  {
    seq(|keys|, i requires 0 <= i < |keys| => Fresh(keys[i]))
  }

  function Close(rec: Record): Record {
    if rec.status == ENABLED then rec.(status := MANUALLY_DISABLED) else rec
  }

  function CloseAll(recs: seq<Record>): (r: seq<Record>)
    ensures |r| == |recs|
    ensures forall i :: 0 <= i < |r| ==> r[i] == Close(recs[i])
  {
    seq(|recs|, i requires 0 <= i < |recs| => Close(recs[i]))
  }

  predicate Auto(rec: Record) {
    rec.status == AUTO_DISABLED
  }

  predicate SomeAuto(recs: seq<Record>) {
    exists i :: 0 <= i < |recs| && Auto(recs[i])
  }

  predicate SomeKept(recs: seq<Record>) {
    exists i :: 0 <= i < |recs| && !Auto(recs[i])
  }

  /** Without the automatically disabled ones; an enabled key starts afresh. */
  function Survivors(recs: seq<Record>): seq<Record> {
    if recs == [] then []
    else
      var init, last := Survivors(recs[..|recs| - 1]), recs[|recs| - 1];
      if Auto(last) then init
      else if last.status == ENABLED then init + [Fresh(last.key)]
      else init + [last]
  }

  function Inherit(recs: seq<Record>, after: seq<string>, j: int): Record
    requires 0 <= j < |after|
  {
    var i := Source(KeyList(recs), after, j);
    if i < 0 then Fresh(after[j]) else recs[i].(key := after[j])
  }

  function InheritAll(recs: seq<Record>, after: seq<string>): (r: seq<Record>)
    ensures |r| == |after|
    ensures forall j :: 0 <= j < |r| ==> r[j] == Inherit(recs, after, j)
  {
    seq(|after|, j requires 0 <= j < |after| => Inherit(recs, after, j))
  }

  function RemoveAt(recs: seq<Record>, i: int): seq<Record>
    requires 0 <= i < |recs|
  {
    recs[..i] + recs[i + 1..]
  }

  /** The same action on a plain list of records. */
  function Plain(recs: seq<Record>, a: Action): seq<Record> {
    match a
    case Disable(i) => if 0 <= i < |recs| then recs[i := recs[i].(status := MANUALLY_DISABLED)] else recs
    case Enable(i) => if 0 <= i < |recs| then recs[i := Fresh(recs[i].key)] else recs
    case EnableAll => FreshAll(KeyList(recs))
    case DisableAll => CloseAll(recs)
    case Delete(i) => if 0 <= i < |recs| && |recs| > 1 then RemoveAt(recs, i) else recs
    case DeleteAuto => if SomeAuto(recs) then Survivors(recs) else recs
    case Append(input) =>
      if recs == [] then FreshAll(ReadList(input, '\n'))
      else recs + FreshAll(NewKeys(KeyList(recs), input))
    case Replace(text) => if text == "" then recs else InheritAll(recs, ReadList(text, '\n'))
    case Mark(key, status, reason, now) =>
      var i := FirstIndex(KeyList(recs), key);
      if i < 0 then recs
      else if status == ENABLED then recs[i := recs[i].(status := ENABLED)]
      else recs[i := Record(key, status, Some(now), Some(reason))]
  }

  /** Neither end of the list is blank, so it survives being stored and read back. */
  predicate Framed(recs: seq<Record>) {
    recs != [] && recs[0].key != "" && recs[|recs| - 1].key != ""
  }

  /**
   When an action acts on the stored row as on the plain list: what a delete leaves has no
   blank end, and an append does not come behind a blank first line.
   */
  predicate Safe(recs: seq<Record>, a: Action) {
    match a
    case Delete(i) => 0 <= i < |recs| && |recs| > 1 ==> Framed(RemoveAt(recs, i))
    case DeleteAuto => SomeAuto(recs) ==> Framed(Survivors(recs))
    case Append(input) => recs != [] && recs[0].key == "" ==> NewKeys(KeyList(recs), input) == []
    case _ => true
  }

  // ---------------------------------------------------------------- single actions

  lemma RecordsKeys(row: Row)
    ensures KeyList(Records(row)) == KeysOf(row)
  {}

  /** Writing non-blank, newline-free keys and reading them back. */
  lemma SavedKeys(row: Row, keys: seq<string>, status: map<int, int>, time: map<int, int>, reason: map<int, string>)
    requires Storable(keys, '\n')
    requires Below(status, |keys|)
    ensures Saved(row, Join(keys, '\n'), status, time, reason) == Row(Join(keys, '\n'), |keys|, status, time, reason)
    ensures ReadList(Join(keys, '\n'), '\n') == keys
  {
    StorageRoundTrip(keys, '\n');
    ReadListShape(Join(keys, '\n'), '\n');
    assert (map i | i in status && i < |keys| :: status[i]) == status;
  }

  lemma KeepText(row: Row, status: map<int, int>, time: map<int, int>, reason: map<int, string>)
    requires InRange(row) && Below(status, row.size)
    ensures Saved(row, row.text, status, time, reason) == Row(row.text, row.size, status, time, reason)
  {
    assert (map i | i in status && i < row.size :: status[i]) == status;
  }

  lemma CarryBelow<T>(m: map<int, T>, src: seq<int>)
    ensures Below(Carry(m, src), |src|)
  {}

  /** Record j of the carried maps is record src[j] of the old ones. */
  lemma CarriedRecord(row: Row, row': Row, src: seq<int>, key: string, j: int)
    requires 0 <= j < |src|
    requires row'.status in {Carry(row.status, src), Carry(Disabled(row.status), src)}
    requires row'.time == Carry(row.time, src) && row'.reason == Carry(row.reason, src)
    ensures RecordAt(row', key, j) == if src[j] < 0 then Fresh(key) else RecordAt(row, key, src[j])
  {}

  lemma {:induction false} OthersOne(n: nat, i: int)
    requires 0 <= i
    ensures |Others(n, {i})| == if i < n then n - 1 else n
    ensures forall j :: 0 <= j < |Others(n, {i})| ==> Others(n, {i})[j] == if j < i then j else j + 1
  {
    if n > 0 {
      OthersOne(n - 1, i);
    }
  }

  lemma DisableRefines(row: Row, i: int)
    requires InRange(row)
    ensures InRange(AfterDisable(row, i))
    ensures Records(AfterDisable(row, i)) == Plain(Records(row), Disable(i))
  {
    if 0 <= i < row.size {
      KeepText(row, row.status[i := MANUALLY_DISABLED], row.time, row.reason);
    }
  }

  lemma EnableRefines(row: Row, i: int)
    requires InRange(row)
    ensures InRange(AfterEnable(row, i))
    ensures Records(AfterEnable(row, i)) == Plain(Records(row), Enable(i))
  {
    if 0 <= i < row.size {
      KeepText(row, row.status - {i}, row.time - {i}, row.reason - {i});
    }
  }

  lemma EnableAllRefines(row: Row)
    requires InRange(row)
    ensures InRange(AfterEnableAll(row))
    ensures Records(AfterEnableAll(row)) == Plain(Records(row), EnableAll)
  {
    KeepText(row, map[], map[], map[]);
  }

  lemma ClosedBelow(status: map<int, int>, n: int)
    requires Below(status, n) && forall i :: i in status ==> status[i] != ENABLED
    ensures Below(ClosedStatus(status, n), n)
    ensures forall i :: i in ClosedStatus(status, n) ==> ClosedStatus(status, n)[i] != ENABLED
  {
    forall i | i in ClosedStatus(status, n)
      ensures 0 <= i < n && ClosedStatus(status, n)[i] != ENABLED
    {
      ClosedStatusAt(status, n, i);
    }
  }

  lemma DisableAllRefines(row: Row)
    requires InRange(row)
    ensures InRange(AfterDisableAll(row))
    ensures Records(AfterDisableAll(row)) == Plain(Records(row), DisableAll)
  {
    var recs := Records(row);
    if AnyEnabled(row.status, row.size) {
      var closed := ClosedStatus(row.status, row.size);
      ClosedBelow(row.status, row.size);
      KeepText(row, closed, row.time, row.reason);
      forall i | 0 <= i < |recs|
        ensures Records(AfterDisableAll(row))[i] == Close(recs[i])
      {
        ClosedStatusAt(row.status, row.size, i);
      }
    } else {
      forall i | 0 <= i < |recs|
        ensures Close(recs[i]) == recs[i]
      {
        assert StatusAt(row.status, i) != ENABLED;
      }
    }
  }

  lemma MarkRefines(row: Row, key: string, status: int, reason: string, now: int)
    requires InRange(row)
    ensures InRange(AfterMark(row, key, status, reason, now))
    ensures Records(AfterMark(row, key, status, reason, now)) == Plain(Records(row), Mark(key, status, reason, now))
  {
    RecordsKeys(row);
    var i := FirstIndex(KeysOf(row), key);
    if i >= 0 {
      MarkRecords(row, AfterMark(row, key, status, reason, now), i);
    }
  }

  lemma MarkRecords(row: Row, row': Row, i: int)
    requires KeysOf(row') == KeysOf(row) && 0 <= i < |KeysOf(row)|
    requires forall k :: k != i ==> RecordAt(row', "", k) == RecordAt(row, "", k)
    ensures Records(row') == Records(row)[i := RecordAt(row', KeysOf(row)[i], i)]
  {
    forall k | 0 <= k < |KeysOf(row)| && k != i
      ensures Records(row')[k] == Records(row)[k]
    {
      assert RecordAt(row', "", k) == RecordAt(row, "", k);
    }
  }

  function RestKeys(row: Row, i: int): seq<string>
    requires 0 <= i < |KeysOf(row)|
  {
    KeysOf(row)[..i] + KeysOf(row)[i + 1..]
  }

  lemma RestSepFree(row: Row, i: int)
    requires 0 <= i < |KeysOf(row)|
    ensures SepFree(RestKeys(row, i), '\n')
    ensures Pick(KeysOf(row), Others(|KeysOf(row)|, {i})) == RestKeys(row, i)
    ensures forall p :: p in RestKeys(row, i) ==> p in KeysOf(row)
  {
    OthersOne(|KeysOf(row)|, i);
    ReadListShape(row.text, '\n');
  }

  lemma SavedNotes(row: Row, keys: seq<string>, n: Notes, src: seq<int>)
    requires Storable(keys, '\n') && |keys| == |src|
    ensures var c := CarryNotes(n, src);
            SavedWith(row, Join(keys, '\n'), c) == Row(Join(keys, '\n'), |keys|, c.status, c.time, c.reason)
    ensures ReadList(Join(keys, '\n'), '\n') == keys
  {
    var c := CarryNotes(n, src);
    CarryBelow(n.status, src);
    SavedKeys(row, keys, c.status, c.time, c.reason);
  }

  /** A shorter list of keys is stored and read back if and only if neither of its ends is blank. */
  lemma ShrunkKeys(row: Row, keys: seq<string>, n: Notes)
    requires |keys| < |KeysOf(row)| && SepFree(keys, '\n')
    ensures KeysOf(SavedWith(row, Join(keys, '\n'), n)) == keys <==> Storable(keys, '\n')
  {
    if keys != [] {
      StorageRoundTrip(keys, '\n');
    }
  }

  /** What is picked from a column holds no newline. */
  lemma PickedSepFree(row: Row, src: seq<int>)
    requires forall j :: 0 <= j < |src| ==> 0 <= src[j] < |KeysOf(row)|
    ensures SepFree(Pick(KeysOf(row), src), '\n')
  {
    ReadListShape(row.text, '\n');
    var keys := Pick(KeysOf(row), src);
    forall p | p in keys
      ensures '\n' !in p
    {
      var j :| 0 <= j < |keys| && keys[j] == p;
      assert KeysOf(row)[src[j]] in KeysOf(row);
    }
  }

  /** A row whose maps were carried over and whose list was read back is in range. */
  lemma CarriedInRange(row: Row, n: Notes, src: seq<int>)
    requires |KeysOf(row)| == row.size == |src|
    requires row.status == Carry(n.status, src) && row.time == Carry(n.time, src) && row.reason == Carry(n.reason, src)
    requires forall i :: i in n.status ==> n.status[i] != ENABLED
    ensures InRange(row)
  {}

  lemma CarriedRecords(row: Row, row': Row, src: seq<int>, keys: seq<string>, want: seq<Record>)
    requires KeysOf(row') == keys && |keys| == |src| == |want|
    requires row'.status in {Carry(row.status, src), Carry(Disabled(row.status), src)}
    requires row'.time == Carry(row.time, src) && row'.reason == Carry(row.reason, src)
    requires forall j :: 0 <= j < |src| ==>
      want[j] == if src[j] < 0 then Fresh(keys[j]) else RecordAt(row, keys[j], src[j])
    ensures Records(row') == want
  {
    forall j | 0 <= j < |src|
      ensures Records(row')[j] == want[j]
    {
      CarriedRecord(row, row', src, keys[j], j);
    }
  }

  lemma RestRecord(row: Row, i: int, j: int)
    requires 0 <= i < |KeysOf(row)| && 0 <= j < |KeysOf(row)| - 1
    ensures RemoveAt(Records(row), i)[j] == RecordAt(row, RestKeys(row, i)[j], if j < i then j else j + 1)
  {}

  lemma DeleteRecords(row: Row, i: int)
    requires InRange(row) && 0 <= i < row.size && row.size > 1 && Storable(RestKeys(row, i), '\n')
    ensures InRange(AfterDelete(row, i))
    ensures Records(AfterDelete(row, i)) == RemoveAt(Records(row), i)
  {
    var src, rest, want := Others(row.size, {i}), RestKeys(row, i), RemoveAt(Records(row), i);
    RestSepFree(row, i);
    OthersOne(row.size, i);
    SavedNotes(row, rest, KeptNotes(row), src);
    CarriedInRange(AfterDelete(row, i), KeptNotes(row), src);
    forall j | 0 <= j < |src|
      ensures want[j] == RecordAt(row, rest[j], src[j])
    {
      RestRecord(row, i, j);
    }
    CarriedRecords(row, AfterDelete(row, i), src, rest, want);
  }

  lemma RemoveAtKeys(row: Row, i: int)
    requires 0 <= i < |KeysOf(row)|
    ensures KeyList(RemoveAt(Records(row), i)) == RestKeys(row, i)
  {}

  /** Deleting acts as on the plain list exactly when neither end of what remains is blank. */
  lemma DeleteRefinesExactly(row: Row, i: int)
    requires InRange(row) && 0 <= i < row.size && row.size > 1
    ensures Records(AfterDelete(row, i)) == RemoveAt(Records(row), i)
            <==> RestKeys(row, i)[0] != "" && RestKeys(row, i)[row.size - 2] != ""
  {
    RestSepFree(row, i);
    OthersOne(row.size, i);
    if Storable(RestKeys(row, i), '\n') {
      DeleteRecords(row, i);
    } else {
      ShrunkKeys(row, RestKeys(row, i), CarryNotes(KeptNotes(row), Others(row.size, {i})));
      RecordsKeys(AfterDelete(row, i));
      RemoveAtKeys(row, i);
    }
  }

  lemma DeleteRefines(row: Row, i: int)
    requires InRange(row)
    ensures Records(AfterDelete(row, i)) == Plain(Records(row), Delete(i)) <==> Safe(Records(row), Delete(i))
    ensures Safe(Records(row), Delete(i)) ==> InRange(AfterDelete(row, i))
  {
    if 0 <= i < row.size {
      OthersOne(row.size, i);
      if row.size > 1 {
        DeleteRefinesExactly(row, i);
        var rest := RemoveAt(Records(row), i);
        RemoveAtKeys(row, i);
        assert rest[0].key == RestKeys(row, i)[0] && rest[|rest| - 1].key == RestKeys(row, i)[row.size - 2];
        if Framed(rest) {
          RestSepFree(row, i);
          DeleteRecords(row, i);
        }
      }
    }
  }

  // ---------------------------------------------------------------- bulk delete

  function Scrub(rec: Record): Record {
    if rec.status == ENABLED then Fresh(rec.key) else rec
  }

  function Scrubbed(row: Row): Row {
    var n := DisabledNotes(row);
    Row(row.text, row.size, n.status, n.time, n.reason)
  }

  lemma {:induction false} SurvivorsLength(recs: seq<Record>, drop: set<int>)
    requires forall i :: 0 <= i < |recs| ==> (i in drop <==> Auto(recs[i]))
    ensures |Survivors(recs)| == |Others(|recs|, drop)|
  {
    if recs != [] {
      SurvivorsLength(recs[..|recs| - 1], drop);
    }
  }

  lemma {:induction false} SurvivorsAt(recs: seq<Record>, drop: set<int>, j: int)
    requires forall i :: 0 <= i < |recs| ==> (i in drop <==> Auto(recs[i]))
    requires 0 <= j < |Survivors(recs)|
    ensures j < |Others(|recs|, drop)| && Survivors(recs)[j] == Scrub(recs[Others(|recs|, drop)[j]])
  {
    SurvivorsLength(recs, drop);
    var init := recs[..|recs| - 1];
    SurvivorsLength(init, drop);
    if j < |Survivors(init)| {
      SurvivorsAt(init, drop, j);
    }
  }

  lemma AutoMatches(row: Row)
    requires InRange(row)
    ensures forall i :: 0 <= i < row.size ==> (i in AutoDisabled(row.status) <==> Auto(Records(row)[i]))
  {}

  lemma AutoCounts(row: Row)
    requires InRange(row)
    ensures var src := Others(row.size, AutoDisabled(row.status));
            (|src| < row.size <==> SomeAuto(Records(row))) && (src != [] <==> SomeKept(Records(row)))
  {
    AutoMatches(row);
    OthersCount(row.size, AutoDisabled(row.status));
  }

  lemma ScrubbedRecord(row: Row, key: string, i: int)
    ensures RecordAt(Scrubbed(row), key, i) == Scrub(RecordAt(row, key, i))
  {}

  lemma SurvivorsCarried(row: Row, keys: seq<string>, src: seq<int>)
    requires InRange(row) && src == Others(row.size, AutoDisabled(row.status)) && keys == Pick(KeysOf(row), src)
    ensures |Survivors(Records(row))| == |src|
    ensures forall j :: 0 <= j < |src| ==> Survivors(Records(row))[j] == RecordAt(Scrubbed(row), keys[j], src[j])
  {
    AutoMatches(row);
    SurvivorsLength(Records(row), AutoDisabled(row.status));
    forall j | 0 <= j < |src|
      ensures Survivors(Records(row))[j] == RecordAt(Scrubbed(row), keys[j], src[j])
    {
      SurvivorsAt(Records(row), AutoDisabled(row.status), j);
      ScrubbedRecord(row, keys[j], src[j]);
    }
  }

  /** The keys a bulk delete leaves. */
  function KeptKeys(row: Row): seq<string> {
    Pick(KeysOf(row), Others(|KeysOf(row)|, AutoDisabled(row.status)))
  }

  lemma SurvivorsKeys(row: Row)
    requires InRange(row)
    ensures KeyList(Survivors(Records(row))) == KeptKeys(row)
  {
    SurvivorsCarried(row, KeptKeys(row), Others(row.size, AutoDisabled(row.status)));
  }

  lemma DeleteAutoRecords(row: Row)
    requires InRange(row) && SomeAuto(Records(row)) && Storable(KeptKeys(row), '\n')
    ensures InRange(AfterDeleteAuto(row))
    ensures Records(AfterDeleteAuto(row)) == Survivors(Records(row))
  {
    var src, keys := Others(row.size, AutoDisabled(row.status)), KeptKeys(row);
    AutoCounts(row);
    SavedNotes(row, keys, DisabledNotes(row), src);
    CarriedInRange(AfterDeleteAuto(row), DisabledNotes(row), src);
    SurvivorsCarried(row, keys, src);
    CarriedRecords(Scrubbed(row), AfterDeleteAuto(row), src, keys, Survivors(Records(row)));
  }

  /** With every key disabled, the bulk delete leaves all of them in place, enabled. */
  lemma DeleteAllAuto(row: Row)
    requires InRange(row) && SomeAuto(Records(row)) && !SomeKept(Records(row))
    ensures Records(AfterDeleteAuto(row)) == FreshAll(KeysOf(row)) && KeysOf(row) != []
  {
    AutoCounts(row);
    CarryNowhere(DisabledNotes(row));
    assert AfterDeleteAuto(row) == SavedWith(row, "", NO_NOTES);
  }

  lemma CarryNowhere(n: Notes)
    ensures CarryNotes(n, []) == NO_NOTES
  {}

  /**
   The bulk delete does what it says exactly when some key is left over and neither end of
   what is left is blank.
   */
  lemma DeleteAutoRefinesExactly(row: Row)
    requires InRange(row) && SomeAuto(Records(row))
    ensures Records(AfterDeleteAuto(row)) == Survivors(Records(row)) <==>
            var keys := KeptKeys(row); keys != [] && keys[0] != "" && keys[|keys| - 1] != ""
  {
    var src, keys := Others(row.size, AutoDisabled(row.status)), KeptKeys(row);
    PickedSepFree(row, src);
    AutoCounts(row);
    if Storable(keys, '\n') {
      DeleteAutoRecords(row);
    } else {
      ShrunkKeys(row, keys, CarryNotes(DisabledNotes(row), src));
      RecordsKeys(AfterDeleteAuto(row));
      SurvivorsKeys(row);
    }
  }

  lemma DeleteAutoRefines(row: Row)
    requires InRange(row)
    ensures Records(AfterDeleteAuto(row)) == Plain(Records(row), DeleteAuto) <==> Safe(Records(row), DeleteAuto)
    ensures Safe(Records(row), DeleteAuto) ==> InRange(AfterDeleteAuto(row))
  {
    if SomeAuto(Records(row)) {
      DeleteAutoRefinesExactly(row);
      SurvivorsKeys(row);
      PickedSepFree(row, Others(row.size, AutoDisabled(row.status)));
      if Framed(Survivors(Records(row))) {
        DeleteAutoRecords(row);
      }
    } else {
      DeleteAutoNothing(row);
    }
  }

  lemma DeleteAutoNothing(row: Row)
    requires InRange(row) && !SomeAuto(Records(row))
    ensures AfterDeleteAuto(row) == row
  {
    AutoCounts(row);
    OthersCount(row.size, AutoDisabled(row.status));
  }

  // ---------------------------------------------------------------- append and replace

  lemma NewKeysClean(existing: seq<string>, input: string)
    ensures SepFree(NewKeys(existing, input), '\n') && "" !in NewKeys(existing, input)
    ensures Distinct(NewKeys(existing, input))
    ensures forall k :: k in NewKeys(existing, input) ==> k !in TrimmedKeys(existing)
  {
    var lines, names := Split(input, '\n'), Normalize(Split(input, '\n'));
    SplitParts(input, '\n');
    NormalizeCleans(lines);
    DropNames(names, TrimmedKeys(existing));
    forall k | k in NewKeys(existing, input)
      ensures k != "" && '\n' !in k && k !in TrimmedKeys(existing)
    {
      assert k in Names(NewKeys(existing, input));
      NormalizeNames(lines, k);
      var line :| line in lines && TrimSpace(line) == k;
      if '\n' in k {
        TrimSpaceSubset(line, '\n');
      }
    }
  }

  /** Keys added behind the existing ones start enabled, and nothing else moves. */
  lemma AppendRecords(row: Row, row': Row, added: seq<string>)
    requires InRange(row) && KeysOf(row') == KeysOf(row) + added
    requires row'.status == row.status && row'.time == row.time && row'.reason == row.reason
    ensures Records(row') == Records(row) + FreshAll(added)
  {}

  /** Appending is exact unless it comes behind a column that is one blank line. */
  lemma AppendRefines(row: Row, input: string)
    requires InRange(row) && row.text != ""
    ensures Records(AfterAppend(row, input)) == Records(row) + FreshAll(NewKeys(KeysOf(row), input))
            <==> KeysOf(row)[0] != "" || NewKeys(KeysOf(row), input) == []
    ensures KeysOf(row)[0] != "" || NewKeys(KeysOf(row), input) == [] ==> InRange(AfterAppend(row, input))
  {
    var existing, added := KeysOf(row), NewKeys(KeysOf(row), input);
    NewKeysClean(existing, input);
    ReadListShape(row.text, '\n');
    if existing[0] != "" {
      var keys := existing + added;
      assert added != [] ==> keys[|keys| - 1] in added;
      SavedKeys(row, keys, row.status, row.time, row.reason);
      AppendRecords(row, AfterAppend(row, input), added);
    } else {
      AppendToBlank(row, input);
    }
  }

  /** A column of one blank line reads as one blank key, which an append then overwrites. */
  lemma AppendToBlank(row: Row, input: string)
    requires InRange(row) && row.text != "" && KeysOf(row)[0] == ""
    ensures Records(AfterAppend(row, input)) == Records(row) + FreshAll(NewKeys(KeysOf(row), input))
            <==> NewKeys(KeysOf(row), input) == []
    ensures NewKeys(KeysOf(row), input) == [] ==> InRange(AfterAppend(row, input))
  {
    var added := NewKeys(KeysOf(row), input);
    ReadListShape(row.text, '\n');
    assert KeysOf(row) == [""];
    if added == [] {
      assert [""] + added == [""];
      KeepText(row, row.status, row.time, row.reason);
      assert Records(row) + FreshAll(added) == Records(row);
    } else {
      BlankOverwritten(row, AfterAppend(row, input), added);
    }
  }

  lemma BlankOverwritten(row: Row, row': Row, added: seq<string>)
    requires KeysOf(row) == [""] && added != [] && row'.text == Join([""] + added, '\n')
    ensures Records(row') != Records(row) + FreshAll(added)
  {
    StorageRoundTrip([""] + added, '\n');
    RecordsKeys(row');
    assert KeyList(Records(row) + FreshAll(added)) == [""] + added;
  }

  lemma AppendToNothing(row: Row, input: string)
    requires InRange(row) && row.text == ""
    ensures InRange(AfterAppend(row, input))
    ensures Records(AfterAppend(row, input)) == FreshAll(ReadList(input, '\n'))
  {
    assert row.size == 0;
  }

  lemma InheritAt(row: Row, after: seq<string>, j: int)
    requires 0 <= j < |after|
    ensures var i := Source(KeysOf(row), after, j);
            Inherit(Records(row), after, j) == if i < 0 then Fresh(after[j]) else RecordAt(row, after[j], i)
  {
    RecordsKeys(row);
  }

  lemma ReplaceRow(row: Row, text: string)
    requires text != ""
    ensures var after := ReadList(text, '\n');
            var src := Sources(KeysOf(row), after);
            AfterReplace(row, text) == Row(text, |after|, Carry(row.status, src), Carry(row.time, src),
                                           Carry(row.reason, src))
  {
    var src := Sources(KeysOf(row), ReadList(text, '\n'));
    CarryBelow(row.status, src);
    assert (map i | i in Carry(row.status, src) && i < |src| :: Carry(row.status, src)[i]) == Carry(row.status, src);
  }

  /**
   Replacing the column carries state by occurrence rank: the j-th occurrence of a
   trimmed key gets the status, time and reason of its j-th occurrence before, and
   occurrences beyond the old count start enabled.
   */
  lemma ReplaceCarriesByRank(row: Row, text: string)
    requires text != ""
    ensures Records(AfterReplace(row, text)) == InheritAll(Records(row), ReadList(text, '\n'))
  {
    var after := ReadList(text, '\n');
    var src := Sources(KeysOf(row), after);
    ReplaceRow(row, text);
    var want := InheritAll(Records(row), after);
    forall j | 0 <= j < |src|
      ensures want[j] == if src[j] < 0 then Fresh(after[j]) else RecordAt(row, after[j], src[j])
    {
      InheritAt(row, after, j);
    }
    CarriedRecords(row, AfterReplace(row, text), src, after, want);
  }

  lemma ReplaceInRange(row: Row, text: string)
    requires InRange(row) && text != ""
    ensures InRange(AfterReplace(row, text))
  {
    ReplaceRow(row, text);
    CarriedInRange(AfterReplace(row, text), NotesOf(row), Sources(KeysOf(row), ReadList(text, '\n')));
  }

  // ---------------------------------------------------------------- whole runs

  /**
   An action acts on the stored row as on the plain list if and only if it is safe, and then
   no map index leaves the list.
   */
  lemma StepRefines(row: Row, a: Action)
    requires InRange(row)
    ensures Records(Step(row, a)) == Plain(Records(row), a) <==> Safe(Records(row), a)
    ensures Safe(Records(row), a) ==> InRange(Step(row, a))
  {
    match a
    case Disable(i) => DisableRefines(row, i);
    case Enable(i) => EnableRefines(row, i);
    case EnableAll => EnableAllRefines(row);
    case DisableAll => DisableAllRefines(row);
    case Delete(i) => DeleteRefines(row, i);
    case DeleteAuto => DeleteAutoRefines(row);
    case Append(input) => AppendStep(row, input);
    case Replace(text) => ReplaceStep(row, text);
    case Mark(key, status, reason, now) => MarkRefines(row, key, status, reason, now);
  }

  lemma AppendStep(row: Row, input: string)
    requires InRange(row)
    ensures Records(AfterAppend(row, input)) == Plain(Records(row), Append(input)) <==>
            Safe(Records(row), Append(input))
    ensures Safe(Records(row), Append(input)) ==> InRange(AfterAppend(row, input))
  {
    if row.text == "" {
      AppendToNothing(row, input);
      assert Records(row) == [];
    } else {
      AppendRefines(row, input);
      PlainAppend(row, input);
    }
  }

  lemma PlainAppend(row: Row, input: string)
    requires row.text != ""
    ensures KeysOf(row) != [] &&
            Plain(Records(row), Append(input)) == Records(row) + FreshAll(NewKeys(KeysOf(row), input))
    ensures Safe(Records(row), Append(input)) <==> KeysOf(row)[0] != "" || NewKeys(KeysOf(row), input) == []
  {
    ReadListShape(row.text, '\n');
    RecordsKeys(row);
  }

  lemma ReplaceStep(row: Row, text: string)
    requires InRange(row)
    ensures Records(AfterReplace(row, text)) == Plain(Records(row), Replace(text))
    ensures InRange(AfterReplace(row, text))
  {
    if text == "" {
      KeepText(row, row.status, row.time, row.reason);
    } else {
      ReplaceInRange(row, text);
      ReplaceCarriesByRank(row, text);
    }
  }

  function Run(row: Row, acts: seq<Action>): Row
    decreases |acts|
  {
    if acts == [] then row else Run(Step(row, acts[0]), acts[1..])
  }

  function PlainRun(recs: seq<Record>, acts: seq<Action>): seq<Record>
    decreases |acts|
  {
    if acts == [] then recs else PlainRun(Plain(recs, acts[0]), acts[1..])
  }

  predicate SafeRun(recs: seq<Record>, acts: seq<Action>)
    decreases |acts|
  {
    acts == [] || (Safe(recs, acts[0]) && SafeRun(Plain(recs, acts[0]), acts[1..]))
  }

  /** After each of the first n actions the row still stands for the plain list. */
  ghost predicate Agrees(row: Row, recs: seq<Record>, acts: seq<Action>) {
    forall n :: 0 <= n <= |acts| ==> Records(Run(row, acts[..n])) == PlainRun(recs, acts[..n])
  }

  /**
   A run on the stored row is, at every moment, the run on the plain list if and only if each
   of its actions is safe when its turn comes; and then no map index ever leaves the list.
   */
  lemma {:induction false} RunRefines(row: Row, acts: seq<Action>)
    requires InRange(row)
    ensures Agrees(row, Records(row), acts) <==> SafeRun(Records(row), acts)
    ensures SafeRun(Records(row), acts) ==>
              InRange(Run(row, acts)) && Records(Run(row, acts)) == PlainRun(Records(row), acts)
    decreases |acts|
  {
    if acts != [] {
      var row', recs' := Step(row, acts[0]), Plain(Records(row), acts[0]);
      StepRefines(row, acts[0]);
      if Safe(Records(row), acts[0]) {
        RunRefines(row', acts[1..]);
        AgreesStep(row, Records(row), acts);
      } else {
        assert acts[..1][1..] == [] && acts[..1][0] == acts[0];
        assert Run(row, acts[..1]) == row' && PlainRun(Records(row), acts[..1]) == recs';
      }
    } else {
      assert forall n :: 0 <= n <= |acts| ==> acts[..n] == [];
    }
  }

  lemma AgreesStep(row: Row, recs: seq<Record>, acts: seq<Action>)
    requires acts != [] && Records(row) == recs
    ensures Agrees(row, recs, acts) <==> Agrees(Step(row, acts[0]), Plain(recs, acts[0]), acts[1..])
  {
    var row', recs', rest := Step(row, acts[0]), Plain(recs, acts[0]), acts[1..];
    forall n | 1 <= n <= |acts|
      ensures Run(row, acts[..n]) == Run(row', rest[..n - 1])
      ensures PlainRun(recs, acts[..n]) == PlainRun(recs', rest[..n - 1])
    {
      assert acts[..n][1..] == rest[..n - 1];
    }
    assert acts[..0] == [];
    if Agrees(row, recs, acts) {
      forall n | 0 <= n <= |rest|
        ensures Records(Run(row', rest[..n])) == PlainRun(recs', rest[..n])
      {
        assert Run(row, acts[..n + 1]) == Run(row', rest[..n + 1 - 1]);
      }
    }
  }

  /** Nothing is recorded for the first n lines. */
  predicate Unnoted(row: Row, n: nat) {
    forall i :: 0 <= i < n ==> RecordAt(row, "", i) == Fresh("")
  }

  /**
   A channel that turns multi-key starts with one enabled record per distinct key if and only
   if its old key is one line and nothing is on record for the lines it gets.
   */
  lemma ConvertStarts(row: Row, input: string)
    requires |ConvertedKeys(row, input)| >= 2
    ensures Records(AfterConvert(row, input)) == FreshAll(ConvertedKeys(row, input)) <==>
            '\n' !in TrimSpace(row.text) && Unnoted(row, |ConvertedKeys(row, input)|)
    ensures NotesOf(row) == NO_NOTES ==> InRange(AfterConvert(row, input))
  {
    var keys := ConvertedKeys(row, input);
    ConvertedLines(row, input);
    NormalizeCleans([TrimSpace(row.text)] + Split(input, '\n'));
    assert keys[0] in keys && keys[|keys| - 1] in keys;
    StoredFresh(row, keys);
  }

  /** Keys read as fresh records if and only if they survive the storage and nothing is on record for their lines. */
  lemma StoredFresh(row: Row, keys: seq<string>)
    requires keys != [] && keys[0] != ""
    ensures var row' := Saved(row, Join(keys, '\n'), row.status, row.time, row.reason);
            Records(row') == FreshAll(keys) <==> Storable(keys, '\n') && Unnoted(row, |keys|)
  {
    var row' := Saved(row, Join(keys, '\n'), row.status, row.time, row.reason);
    StorageRoundTrip(keys, '\n');
    JoinFirst(keys, '\n');
    RecordsKeys(row');
    if Storable(keys, '\n') {
      FreshExactly(row, row', keys);
    } else {
      assert KeyList(FreshAll(keys)) == keys != KeysOf(row');
    }
  }

  lemma FreshExactly(row: Row, row': Row, keys: seq<string>)
    requires KeysOf(row') == keys
    requires forall i :: 0 <= i < |keys| ==> RecordAt(row', "", i) == RecordAt(row, "", i)
    ensures Records(row') == FreshAll(keys) <==> Unnoted(row, |keys|)
  {
    forall i | 0 <= i < |keys|
      ensures Records(row')[i] == FreshAll(keys)[i] <==> RecordAt(row, "", i) == Fresh("")
    {
      assert RecordAt(row', "", i) == RecordAt(row, "", i);
    }
  }

  /** Only the old key can bring in a line break. */
  lemma ConvertedLines(row: Row, input: string)
    ensures SepFree(ConvertedKeys(row, input), '\n') <==> '\n' !in TrimSpace(row.text)
  {
    var origin, keys := TrimSpace(row.text), ConvertedKeys(row, input);
    var lines := [origin] + Split(input, '\n');
    SplitParts(input, '\n');
    TrimSpaceTrims(row.text);
    NormalizeNames(lines, origin);
    assert lines[0] == origin;
    if '\n' !in origin {
      forall k | k in keys
        ensures '\n' !in k
      {
        NormalizeNames(lines, k);
        var line :| line in lines && TrimSpace(line) == k;
        if '\n' in k {
          TrimSpaceSubset(line, '\n');
        }
      }
    }
  }

  // ---------------------------------------------------------------- inputs that break it

  lemma LeadingBlankLost(b: string)
    requires b != "" && '\n' !in b
    ensures ReadList(Join(["", b], '\n'), '\n') == [b] && Join(["", b], '\n') != ""
  {
    assert ["", b][1..] == [b];
    var text := Join(["", b], '\n');
    assert text == ['\n'] + b && text[1..] == b;
    assert b[0] in b && b[|b| - 1] in b;
    assert StripLeft(text, '\n') == StripLeft(b, '\n') == b;
    SplitPart(b, '\n');
  }

  /** A blank line between two keys is stored and read as it stands. */
  lemma BlankLineStored(a: string, b: string, row: Row)
    requires a != "" && '\n' !in a && b != "" && '\n' !in b && row.text == Join([a, "", b], '\n')
    ensures KeysOf(row) == [a, "", b]
  {
    StorageRoundTrip([a, "", b], '\n');
  }

  /** With a blank second line, deleting the first key enables the third, whatever its status was. */
  lemma BlankLineShiftsStatus(row: Row)
    requires |KeysOf(row)| == row.size == 3 && KeysOf(row)[1] == "" && KeysOf(row)[2] != ""
    requires row.status.Keys == {2} && row.status[2] != ENABLED && row.time == map[] && row.reason == map[]
    ensures Records(row)[2].status == row.status[2]
    ensures Records(AfterDelete(row, 0)) == [Fresh(KeysOf(row)[2])]
  {
    var b := KeysOf(row)[2];
    ReadListShape(row.text, '\n');
    assert b in KeysOf(row);
    DeleteFirst(row);
    assert KeysOf(row)[1..] == ["", b];
    BlankLineRow(row, [1, 2], b);
  }

  /** Such rows exist: the column a, blank line, b. */
  lemma BlankLineWitness(a: string, b: string, status: int) returns (row: Row)
    requires a != "" && '\n' !in a && b != "" && '\n' !in b && status != ENABLED
    ensures InRange(row) && KeysOf(row) == [a, "", b] && Records(row)[2] == Record(b, status, None, None)
    ensures Records(AfterDelete(row, 0)) == [Fresh(b)]
  {
    row := Row(Join([a, "", b], '\n'), 3, map[2 := status], map[], map[]);
    BlankLineStored(a, b, row);
    BlankLineShiftsStatus(row);
  }

  lemma DeleteFirst(row: Row)
    requires |KeysOf(row)| == 3 && row.size == 3
    ensures AfterDelete(row, 0) == SavedWith(row, Join(KeysOf(row)[1..], '\n'), CarryNotes(KeptNotes(row), [1, 2]))
  {
    OthersOne(3, 0);
    assert Others(3, {0}) == [1, 2];
    assert Pick(KeysOf(row), [1, 2]) == KeysOf(row)[1..];
  }

  lemma BlankLineRow(row: Row, src: seq<int>, b: string)
    requires src == [1, 2] && row.time == map[] && row.reason == map[] && row.status.Keys == {2}
    requires b != "" && '\n' !in b
    ensures Records(SavedWith(row, Join(["", b], '\n'), CarryNotes(KeptNotes(row), src))) == [Fresh(b)]
  {
    LeadingBlankLost(b);
    var c := CarryNotes(KeptNotes(row), src);
    assert 0 !in c.status && 0 !in c.time && 0 !in c.reason;
  }

  // ---------------------------------------------------------------- reported counts

  function CountDisabled(recs: seq<Record>): nat {
    if recs == [] then 0
    else CountDisabled(recs[..|recs| - 1]) + (if recs[|recs| - 1].status != ENABLED then 1 else 0)
  }

  /** enable_all_keys reports the number of keys that were not enabled. */
  lemma EnableAllCount(row: Row)
    requires InRange(row)
    ensures |row.status| == CountDisabled(Records(row))
  {
    StatusCount(row, |KeysOf(row)|);
    assert Records(row)[..|KeysOf(row)|] == Records(row);
    assert (set i | i in row.status && i < row.size) == row.status.Keys;
  }

  /** disable_all_keys reports the number of keys that were enabled. */
  lemma DisableAllCount(row: Row)
    requires InRange(row)
    ensures CountEnabled(row.status, row.size) + CountDisabled(Records(row)) == |Records(row)|
  {
    EnabledCount(row, |KeysOf(row)|);
    assert Records(row)[..|KeysOf(row)|] == Records(row);
  }

  lemma {:induction false} EnabledCount(row: Row, n: nat)
    requires n <= |KeysOf(row)|
    ensures CountEnabled(row.status, n) + CountDisabled(Records(row)[..n]) == n
  {
    if n > 0 {
      EnabledCount(row, n - 1);
      assert Records(row)[..n][..n - 1] == Records(row)[..n - 1];
    }
  }

  lemma {:induction false} StatusCount(row: Row, n: nat)
    requires InRange(row) && n <= |KeysOf(row)|
    ensures |set i | i in row.status && i < n| == CountDisabled(Records(row)[..n])
  {
    var below := set i | i in row.status && i < n;
    if n == 0 {
      assert below == {};
    } else {
      StatusCount(row, n - 1);
      var fewer := set i | i in row.status && i < n - 1;
      assert Records(row)[..n][..n - 1] == Records(row)[..n - 1];
      assert below == if n - 1 in row.status then fewer + {n - 1} else fewer;
    }
  }
}
