/**
 Multi-key channels (controller/channel.go, model/channel.go). The keys are one text
 column, one key a line; status, disable time and disable reason live in sparse maps
 indexed by line number. MultiKeyRefinement says exactly when an action acts on this row
 as the same action acts on a plain list with one record per key.
 */
module MultiKey {
  import opened NameLists
  import opened Text
  import opened Wrappers

  const ENABLED := 1
  const MANUALLY_DISABLED := 2
  const AUTO_DISABLED := 3

  /** One key with everything recorded about it. */
  datatype Record = Record(key: string, status: int, time: Option<int>, reason: Option<string>)

  /** The stored row: key column, MultiKeySize and the three sparse maps. */
  datatype Row = Row(text: string, size: int, status: map<int, int>, time: map<int, int>, reason: map<int, string>)

  function Fresh(key: string): Record {
    Record(key, ENABLED, None, None)
  }

  /** Channel.GetKeys for a newline-separated column */
  function KeysOf(row: Row): seq<string> {
    ReadList(row.text, '\n')
  }

  function Get<T>(m: map<int, T>, i: int): Option<T> {
    if i in m then Some(m[i]) else None
  }

  /** A key without a status entry is enabled. */
  function StatusAt(status: map<int, int>, i: int): int {
    if i in status then status[i] else ENABLED
  }

  function RecordAt(row: Row, key: string, i: int): Record {
    Record(key, StatusAt(row.status, i), Get(row.time, i), Get(row.reason, i))
  }

  /** The plain list a row stands for. */
  function Records(row: Row): (recs: seq<Record>)
    ensures |recs| == |KeysOf(row)|
    ensures forall i :: 0 <= i < |recs| ==> recs[i] == RecordAt(row, KeysOf(row)[i], i)
  {
    seq(|KeysOf(row)|, i requires 0 <= i < |KeysOf(row)| => RecordAt(row, KeysOf(row)[i], i))
  }

  predicate Below<T>(m: map<int, T>, n: int) {
    forall i :: i in m ==> 0 <= i < n
  }

  /** No map index falls outside the key list, and only disabled keys have a status entry. */
  predicate InRange(row: Row) {
    && row.size == |KeysOf(row)|
    && Below(row.status, row.size) && Below(row.time, row.size) && Below(row.reason, row.size)
    && forall i :: i in row.status ==> row.status[i] != ENABLED
  }

  /**
   Channel.Update (model/channel.go): a blank key column leaves the stored one alone,
   the size is recounted, and status entries past the end are dropped.
   */
  function Saved(row: Row, text: string, status: map<int, int>, time: map<int, int>, reason: map<int, string>): Row {
    var text' := if text == "" then row.text else text;
    var n := |ReadList(text', '\n')|;
    Row(text', n, map i | i in status && i < n :: status[i], time, reason)
  }

  // ---------------------------------------------------------------- carrying entries over

  /** Entry j of the result is entry src[j] of m, if there is one; -1 stands for no source. */
  function Carry<T>(m: map<int, T>, src: seq<int>): map<int, T> {
    map j | 0 <= j < |src| && src[j] >= 0 && src[j] in m :: m[src[j]]
  }

  lemma CarryPush<T>(m: map<int, T>, src: seq<int>, x: int)
    ensures Carry(m, src + [x]) == if x >= 0 && x in m then Carry(m, src)[|src| := m[x]] else Carry(m, src)
  {}

  /** Everything recorded by line number. */
  datatype Notes = Notes(status: map<int, int>, time: map<int, int>, reason: map<int, string>)

  function CarryNotes(n: Notes, src: seq<int>): Notes {
    Notes(Carry(n.status, src), Carry(n.time, src), Carry(n.reason, src))
  }

  /** Copies what is recorded for old line i to the next new line. */
  method CopyNotes(from: Notes, i: int, to: Notes, j: int, ghost src: seq<int>) returns (to': Notes)
    requires i >= 0 && to == CarryNotes(from, src) && j == |src|
    ensures to' == CarryNotes(from, src + [i])
  {
    CarryPush(from.status, src, i);
    CarryPush(from.time, src, i);
    CarryPush(from.reason, src, i);
    var status, time, reason := to.status, to.time, to.reason;
    if i in from.status {
      status := status[j := from.status[i]];
    }
    if i in from.time {
      time := time[j := from.time[i]];
    }
    if i in from.reason {
      reason := reason[j := from.reason[i]];
    }
    to' := Notes(status, time, reason);
  }

  lemma CarryNothing(n: Notes, src: seq<int>)
    ensures CarryNotes(n, src + [-1]) == CarryNotes(n, src)
  {
    CarryPush(n.status, src, -1);
    CarryPush(n.time, src, -1);
    CarryPush(n.reason, src, -1);
  }

  const NO_NOTES := Notes(map[], map[], map[])

  function Disabled(status: map<int, int>): map<int, int> {
    map i | i in status && status[i] != ENABLED :: status[i]
  }

  function Restrict<T>(m: map<int, T>, keys: set<int>): map<int, T> {
    map i | i in m && i in keys :: m[i]
  }

  /** The indexes below n outside a set, in order. */
  function Others(n: nat, drop: set<int>): (src: seq<int>)
    ensures forall j :: 0 <= j < |src| ==> 0 <= src[j] < n && src[j] !in drop
  {
    if n == 0 then []
    else if n - 1 in drop then Others(n - 1, drop)
    else Others(n - 1, drop) + [n - 1]
  }

  function Pick<T>(s: seq<T>, src: seq<int>): (r: seq<T>)
    requires forall j :: 0 <= j < |src| ==> 0 <= src[j] < |s|
    ensures |r| == |src|
    ensures forall j :: 0 <= j < |r| ==> r[j] == s[src[j]]
  {
    seq(|src|, j requires 0 <= j < |src| => s[src[j]])
  }

  lemma {:induction false} OthersCount(n: nat, drop: set<int>)
    ensures |Others(n, drop)| <= n
    ensures |Others(n, drop)| == n <==> forall i :: 0 <= i < n ==> i !in drop
    ensures Others(n, drop) == [] <==> forall i :: 0 <= i < n ==> i in drop
  {
    if n > 0 {
      OthersCount(n - 1, drop);
    }
  }

  /** The loop of both deletes: skip some lines, renumber what is recorded for the rest. */
  method Reindex(keys: seq<string>, drop: set<int>, kept: Notes) returns (remaining: seq<string>, notes: Notes)
    ensures remaining == Pick(keys, Others(|keys|, drop))
    ensures notes == CarryNotes(kept, Others(|keys|, drop))
  {
    remaining, notes := [], NO_NOTES;
    for k := 0 to |keys|
      invariant remaining == Pick(keys, Others(k, drop))
      invariant notes == CarryNotes(kept, Others(k, drop))
    {
      if k in drop {
        continue;
      }
      PickPush(keys, Others(k, drop), k);
      notes := CopyNotes(kept, k, notes, |remaining|, Others(k, drop));
      remaining := remaining + [keys[k]];
    }
  }

  lemma PickPush<T>(s: seq<T>, src: seq<int>, x: int)
    requires forall j :: 0 <= j < |src| ==> 0 <= src[j] < |s|
    requires 0 <= x < |s|
    ensures Pick(s, src + [x]) == Pick(s, src) + [s[x]]
  {}

  function AutoDisabled(status: map<int, int>): set<int> {
    set i | i in status && status[i] == AUTO_DISABLED
  }

  // ---------------------------------------------------------------- matching by occurrence

  /** Where a trimmed key occurs, in order. */
  function Occurrences(keys: seq<string>, key: string): (occ: seq<int>)
    ensures forall r :: 0 <= r < |occ| ==> 0 <= occ[r] < |keys| && TrimSpace(keys[occ[r]]) == key
  {
    if keys == [] then []
    else
      var init := Occurrences(keys[..|keys| - 1], key);
      if TrimSpace(keys[|keys| - 1]) == key then init + [|keys| - 1] else init
  }

  /** How many earlier lines hold the same trimmed key. */
  function Rank(keys: seq<string>, j: int): nat
    requires 0 <= j < |keys|
  {
    |Occurrences(keys[..j], TrimSpace(keys[j]))|
  }

  /** The old line whose state new line j inherits, or -1. */
  function Source(before: seq<string>, after: seq<string>, j: int): (i: int)
    requires 0 <= j < |after|
    ensures -1 <= i < |before|
  {
    var occ, r := Occurrences(before, TrimSpace(after[j])), Rank(after, j);
    if r < |occ| then occ[r] else -1
  }

  function Sources(before: seq<string>, after: seq<string>): (src: seq<int>)
    ensures |src| == |after|
    ensures forall j :: 0 <= j < |src| ==> src[j] == Source(before, after, j)
  {
    seq(|after|, j requires 0 <= j < |after| => Source(before, after, j))
  }

  lemma {:induction false} OccurrencesIncrease(keys: seq<string>, key: string)
    ensures forall r, r' :: 0 <= r < r' < |Occurrences(keys, key)| ==>
            Occurrences(keys, key)[r] < Occurrences(keys, key)[r']
    ensures forall i :: 0 <= i < |keys| && TrimSpace(keys[i]) == key ==> i in Occurrences(keys, key)
  {
    if keys != [] {
      var init := keys[..|keys| - 1];
      OccurrencesIncrease(init, key);
      forall i | 0 <= i < |keys| && TrimSpace(keys[i]) == key
        ensures i in Occurrences(keys, key)
      {
        if i < |init| {
          assert init[i] == keys[i];
          assert i in Occurrences(init, key);
        }
      }
    }
  }

  lemma {:induction false} RankGrows(keys: seq<string>, j: int, j': int)
    requires 0 <= j < j' <= |keys|
    ensures Rank(keys, j) < |Occurrences(keys[..j'], TrimSpace(keys[j]))|
    decreases j'
  {
    var key := TrimSpace(keys[j]);
    assert keys[..j'][..j' - 1] == keys[..j' - 1];
    if j' == j + 1 {
      assert keys[..j'][j' - 1] == keys[j];
    } else {
      RankGrows(keys, j, j' - 1);
    }
  }

  /** No old record is carried to two new lines. */
  lemma NeverCarriedTwice(before: seq<string>, after: seq<string>, j: int, j': int)
    requires 0 <= j < j' < |after| && Source(before, after, j) >= 0
    ensures Source(before, after, j) != Source(before, after, j')
  {
    var key := TrimSpace(after[j]);
    if Source(before, after, j) == Source(before, after, j') {
      assert TrimSpace(after[j']) == key;
      RankGrows(after, j, j');
      OccurrencesIncrease(before, key);
    }
  }

  function Lookup(queues: map<string, seq<int>>, key: string): seq<int> {
    if key in queues then queues[key] else []
  }

  /** What is left of a key's queue once the lines in done were served. */
  function Left(before: seq<string>, done: seq<string>, key: string): seq<int> {
    var occ, used := Occurrences(before, key), |Occurrences(done, key)|;
    if used <= |occ| then occ[used..] else []
  }

  ghost predicate Pending(queues: map<string, seq<int>>, before: seq<string>, done: seq<string>) {
    forall key :: Lookup(queues, key) == Left(before, done, key)
  }

  method IndexKeys(keys: seq<string>) returns (queues: map<string, seq<int>>)
    ensures Pending(queues, keys, [])
  {
    queues := map[];
    for i := 0 to |keys|
      invariant forall key :: Lookup(queues, key) == Occurrences(keys[..i], key)
    {
      assert keys[..i + 1][..i] == keys[..i];
      var key := TrimSpace(keys[i]);
      queues := queues[key := Lookup(queues, key) + [i]];
    }
    assert keys[..|keys|] == keys;
  }

  lemma PendingHead(queues: map<string, seq<int>>, before: seq<string>, after: seq<string>, j: int)
    requires 0 <= j < |after| && Pending(queues, before, after[..j])
    ensures var queue := Lookup(queues, TrimSpace(after[j]));
            Source(before, after, j) == if queue == [] then -1 else queue[0]
  {}

  lemma PendingPop(queues: map<string, seq<int>>, before: seq<string>, after: seq<string>, j: int)
    requires 0 <= j < |after| && Pending(queues, before, after[..j])
    ensures var key := TrimSpace(after[j]);
            var queue := Lookup(queues, key);
            Pending(if queue == [] then queues else queues[key := queue[1..]], before, after[..j + 1])
  {
    var key := TrimSpace(after[j]);
    var queue := Lookup(queues, key);
    var queues' := if queue == [] then queues else queues[key := queue[1..]];
    forall other
      ensures Lookup(queues', other) == Left(before, after[..j + 1], other)
    {
      LeftPop(before, after, j, other);
      assert Lookup(queues, other) == Left(before, after[..j], other);
    }
  }

  lemma LeftPop(before: seq<string>, after: seq<string>, j: int, key: string)
    requires 0 <= j < |after|
    ensures var left := Left(before, after[..j], key);
            Left(before, after[..j + 1], key) ==
            if TrimSpace(after[j]) == key && left != [] then left[1..] else left
  {
    assert after[..j + 1][..j] == after[..j];
  }

  /** Takes the next old index queued for a new line, or -1. */
  method NextIndex(queues: map<string, seq<int>>, ghost before: seq<string>, after: seq<string>, j: int)
    returns (i: int, queues': map<string, seq<int>>)
    requires 0 <= j < |after| && Pending(queues, before, after[..j])
    ensures i == Source(before, after, j)
    ensures Pending(queues', before, after[..j + 1])
  {
    PendingHead(queues, before, after, j);
    PendingPop(queues, before, after, j);
    var key := TrimSpace(after[j]);
    var indexes := Lookup(queues, key);
    if indexes == [] {
      return -1, queues;
    }
    return indexes[0], queues[key := indexes[1..]];
  }

  /** The loop of a replace: each new line takes what is recorded for its old one. */
  method CarryByRank(origin: Notes, before: seq<string>, after: seq<string>) returns (notes: Notes)
    ensures notes == CarryNotes(origin, Sources(before, after))
  {
    var oldIndexes := IndexKeys(before);
    notes := NO_NOTES;
    ghost var src: seq<int> := [];
    for j := 0 to |after|
      invariant Pending(oldIndexes, before, after[..j])
      invariant |src| == j && forall k :: 0 <= k < j ==> src[k] == Source(before, after, k)
      invariant notes == CarryNotes(origin, src)
    {
      var i;
      i, oldIndexes := NextIndex(oldIndexes, before, after, j);
      if i < 0 {
        CarryNothing(origin, src);
      } else {
        notes := CopyNotes(origin, i, notes, j, src);
      }
      src := src + [i];
    }
    assert src == Sources(before, after);
  }

  // ---------------------------------------------------------------- the actions on a row

  function AfterDisable(row: Row, i: int): Row {
    if 0 <= i < row.size
    then Saved(row, row.text, row.status[i := MANUALLY_DISABLED], row.time, row.reason) else row
  }

  function AfterEnable(row: Row, i: int): Row {
    if 0 <= i < row.size then Saved(row, row.text, row.status - {i}, row.time - {i}, row.reason - {i}) else row
  }

  function AfterEnableAll(row: Row): Row {
    Saved(row, row.text, map[], map[], map[])
  }

  function ClosedStatus(status: map<int, int>, n: int): map<int, int> {
    if n <= 0 then status
    else
      var closed := ClosedStatus(status, n - 1);
      if StatusAt(closed, n - 1) == ENABLED then closed[n - 1 := MANUALLY_DISABLED] else closed
  }

  lemma {:induction false} ClosedStatusAt(status: map<int, int>, n: int, i: int)
    ensures StatusAt(ClosedStatus(status, n), i) ==
            if 0 <= i < n && StatusAt(status, i) == ENABLED then MANUALLY_DISABLED else StatusAt(status, i)
    ensures i in ClosedStatus(status, n) ==> i in status || 0 <= i < n
    decreases if n < 0 then 0 else n
  {
    if n > 0 {
      ClosedStatusAt(status, n - 1, i);
    }
  }

  function CountEnabled(status: map<int, int>, n: int): nat {
    if n <= 0 then 0 else CountEnabled(status, n - 1) + (if StatusAt(status, n - 1) == ENABLED then 1 else 0)
  }

  predicate AnyEnabled(status: map<int, int>, n: int) {
    exists i :: 0 <= i < n && StatusAt(status, i) == ENABLED
  }

  function AfterDisableAll(row: Row): Row {
    if AnyEnabled(row.status, row.size)
    then Saved(row, row.text, ClosedStatus(row.status, row.size), row.time, row.reason) else row
  }

  function NotesOf(row: Row): Notes {
    Notes(row.status, row.time, row.reason)
  }

  /** What delete_key carries over: an explicit "enabled" is not worth an entry. */
  function KeptNotes(row: Row): Notes {
    Notes(Disabled(row.status), row.time, row.reason)
  }

  /** What delete_disabled_keys carries over: nothing about an enabled key. */
  function DisabledNotes(row: Row): Notes {
    var bad := Disabled(row.status);
    Notes(bad, Restrict(row.time, bad.Keys), Restrict(row.reason, bad.Keys))
  }

  function SavedWith(row: Row, text: string, n: Notes): Row {
    Saved(row, text, n.status, n.time, n.reason)
  }

  function AfterDelete(row: Row, i: int): Row {
    var keys := KeysOf(row);
    var src := Others(|keys|, {i});
    if !(0 <= i < row.size) || src == [] then row
    else SavedWith(row, Join(Pick(keys, src), '\n'), CarryNotes(KeptNotes(row), src))
  }

  function AfterDeleteAuto(row: Row): Row {
    var keys := KeysOf(row);
    var src := Others(|keys|, AutoDisabled(row.status));
    if |src| == |keys| then row
    else SavedWith(row, Join(Pick(keys, src), '\n'), CarryNotes(DisabledNotes(row), src))
  }

  function TrimmedKeys(keys: seq<string>): set<string> {
    set k | k in keys :: TrimSpace(k)
  }

  /** The keys an append adds: trimmed, non-blank, not on the channel yet, once each. */
  function NewKeys(existing: seq<string>, input: string): seq<string> {
    Drop(Normalize(Split(input, '\n')), TrimmedKeys(existing))
  }

  lemma DropUniqPush(s: seq<string>, key: string, names: set<string>)
    ensures Drop(Uniq(s + [key]), names) ==
            if key in Names(s) || key in names then Drop(Uniq(s), names) else Drop(Uniq(s), names) + [key]
    ensures Names(s + [key]) == Names(s) + {key}
  {
    UniqPush(s, key);
    DropPush(Uniq(s), key, names);
  }

  lemma NonBlankAt(s: seq<string>, i: int)
    requires NonBlank(s) && 0 <= i < |s|
    ensures s[i] != "" && TrimSpace(s[i]) == s[i]
  {
    assert s[i] in s;
    TrimSpaceFixes(s[i]);
  }

  function AfterAppend(row: Row, input: string): Row {
    var text := if row.text == "" then input
                else Join(KeysOf(row) + NewKeys(KeysOf(row), input), '\n');
    Saved(row, text, row.status, row.time, row.reason)
  }

  function AfterReplace(row: Row, text: string): Row {
    if text == "" then Saved(row, "", row.status, row.time, row.reason)
    else
      SavedWith(row, text, CarryNotes(NotesOf(row), Sources(KeysOf(row), ReadList(text, '\n'))))
  }

  function FirstIndex(keys: seq<string>, key: string): (i: int)
    ensures -1 <= i < |keys|
    ensures i >= 0 ==> keys[i] == key && key !in keys[..i]
    ensures i < 0 ==> key !in keys
  {
    if keys == [] then -1
    else
      var i := FirstIndex(keys[..|keys| - 1], key);
      if i >= 0 then assert keys[..i] == keys[..|keys| - 1][..i]; i
      else if keys[|keys| - 1] == key then |keys| - 1 else -1
  }

  /** handlerMultiKeyUpdate (model/channel.go): the relay disables or restores one key. */
  function AfterMark(row: Row, key: string, status: int, reason: string, now: int): Row {
    var i := FirstIndex(KeysOf(row), key);
    if i < 0 then row
    else if status == ENABLED then row.(status := row.status - {i})
    else row.(status := row.status[i := status], time := row.time[i := now], reason := row.reason[i := reason])
  }

  /** What a single-key channel's append turns it into. */
  function ConvertedKeys(row: Row, input: string): seq<string> {
    Normalize([TrimSpace(row.text)] + Split(input, '\n'))
  }

  function AfterConvert(row: Row, input: string): Row {
    var keys := ConvertedKeys(row, input);
    if |keys| < 2 then row else Saved(row, Join(keys, '\n'), row.status, row.time, row.reason)
  }

  /** What a bulk delete is about to store, and how many keys go. */
  method WithoutAuto(row: Row) returns (remaining: seq<string>, notes: Notes, count: nat)
    ensures var keys, src := KeysOf(row), Others(|KeysOf(row)|, AutoDisabled(row.status));
            && remaining == Pick(keys, src) && notes == CarryNotes(DisabledNotes(row), src)
            && |src| <= |keys| && count == |keys| - |src|
  {
    var keys := KeysOf(row);
    remaining, notes := Reindex(keys, AutoDisabled(row.status), DisabledNotes(row));
    OthersCount(|keys|, AutoDisabled(row.status));
    count := |keys| - |remaining|;
  }

  class MultiKeyChannel {
    var text: string
    var size: int
    var status: map<int, int>
    var time: map<int, int>
    var reason: map<int, string>

    ghost function View(): Row
      reads this
    {
      Row(text, size, status, time, reason)
    }

    constructor (text: string)
      ensures View() == Row(text, |ReadList(text, '\n')|, map[], map[], map[])
    {
      this.text, size := text, |ReadList(text, '\n')|;
      status, time, reason := map[], map[], map[];
    }

    /** Channel.Update; the caller has already set the maps it wants stored. */
    method Save(newText: string)
      modifies this
      ensures View() == Saved(old(View()), newText, old(status), old(time), old(reason))
    {
      if newText != "" {
        text := newText;
      }
      size := |ReadList(text, '\n')|;
      var stale := set i | i in status && i >= size;
      status := status - stale;
    }

    method DisableKey(i: int) returns (ok: bool)
      modifies this
      ensures ok == (0 <= i < old(size))
      ensures View() == AfterDisable(old(View()), i)
    {
      ok := 0 <= i < size;
      if ok {
        status := status[i := MANUALLY_DISABLED];
        Save(text);
      }
    }

    method EnableKey(i: int) returns (ok: bool)
      modifies this
      ensures ok == (0 <= i < old(size))
      ensures View() == AfterEnable(old(View()), i)
    {
      ok := 0 <= i < size;
      if ok {
        status, time, reason := status - {i}, time - {i}, reason - {i};
        Save(text);
      }
    }

    method EnableAllKeys() returns (count: nat)
      modifies this
      ensures count == |old(status)|
      ensures View() == AfterEnableAll(old(View()))
    {
      count := |status|;
      status, time, reason := map[], map[], map[];
      Save(text);
    }

    method DisableAllKeys() returns (ok: bool, count: nat)
      modifies this
      ensures ok == AnyEnabled(old(status), old(size)) && count == CountEnabled(old(status), old(size))
      ensures View() == AfterDisableAll(old(View()))
    {
      var closed := status;
      closed, count := CloseStatus(status, size);
      ok := count > 0;
      if ok {
        status := closed;
        Save(text);
      }
    }

    static method CloseStatus(status: map<int, int>, n: int) returns (closed: map<int, int>, count: nat)
      ensures closed == ClosedStatus(status, n) && count == CountEnabled(status, n)
      ensures count > 0 <==> AnyEnabled(status, n)
    {
      closed, count := status, 0;
      var i := 0;
      while i < n
        invariant 0 <= i && (i <= n || i == 0)
        invariant closed == ClosedStatus(status, i) && count == CountEnabled(status, i)
        invariant count > 0 <==> AnyEnabled(status, i)
      {
        ClosedStatusAt(status, i, i);
        if StatusAt(closed, i) == ENABLED {
          closed := closed[i := MANUALLY_DISABLED];
          count := count + 1;
          assert StatusAt(status, i) == ENABLED;
        }
        i := i + 1;
      }
    }

    method DeleteKey(i: int) returns (ok: bool)
      modifies this
      ensures ok == (0 <= i < old(size) && Others(|KeysOf(old(View()))|, {i}) != [])
      ensures View() == AfterDelete(old(View()), i)
    {
      if !(0 <= i < size) {
        return false;
      }
      var keys := ReadList(text, '\n');
      var remaining, notes := Reindex(keys, {i}, Notes(Disabled(status), time, reason));
      if remaining == [] {
        return false;
      }
      status, time, reason := notes.status, notes.time, notes.reason;
      Save(Join(remaining, '\n'));
      return true;
    }

    method DeleteDisabledKeys() returns (ok: bool, count: nat)
      modifies this
      ensures ok == (|Others(|KeysOf(old(View()))|, AutoDisabled(old(status)))| < |KeysOf(old(View()))|)
      ensures count == |KeysOf(old(View()))| - |Others(|KeysOf(old(View()))|, AutoDisabled(old(status)))|
      ensures View() == AfterDeleteAuto(old(View()))
    {
      var row := Row(text, size, status, time, reason);
      var remaining, notes;
      remaining, notes, count := WithoutAuto(row);
      ok := count != 0;
      if ok {
        status, time, reason := notes.status, notes.time, notes.reason;
        Save(Join(remaining, '\n'));
      }
    }

    /** handlerMultiKeyUpdate */
    method Mark(key: string, newStatus: int, why: string, now: int)
      modifies this
      ensures View() == AfterMark(old(View()), key, newStatus, why, now)
    {
      var i := FirstIndex(ReadList(text, '\n'), key);
      if i >= 0 {
        if newStatus == ENABLED {
          status := status - {i};
        } else {
          status := status[i := newStatus];
          reason := reason[i := why];
          time := time[i := now];
        }
      }
    }

    /** The append mode of UpdateChannel. */
    method AppendKeys(input: string)
      modifies this
      ensures View() == AfterAppend(old(View()), input)
    {
      if text == "" {
        Save(input);
        return;
      }
      var existing := ReadList(text, '\n');
      var lines := Split(input, '\n');
      var newKeys: seq<string> := [];
      for i := 0 to |lines|
        modifies {}
        invariant newKeys == TrimAll(lines[..i])
      {
        assert lines[..i + 1][..i] == lines[..i];
        var key := TrimSpace(lines[i]);
        if key != "" {
          newKeys := newKeys + [key];
        }
      }
      assert lines[..|lines|] == lines;
      TrimAllNonBlank(lines);
      var deduped := Deduplicate(existing, newKeys);
      Save(Join(existing + deduped, '\n'));
    }

    static method SeenKeys(existing: seq<string>) returns (seen: set<string>)
      ensures seen == TrimmedKeys(existing) - {""}
    {
      seen := {};
      for i := 0 to |existing|
        invariant seen == TrimmedKeys(existing[..i]) - {""}
      {
        assert existing[..i + 1] == existing[..i] + [existing[i]];
        assert TrimmedKeys(existing[..i + 1]) == TrimmedKeys(existing[..i]) + {TrimSpace(existing[i])};
        var key := TrimSpace(existing[i]);
        if key != "" {
          seen := seen + {key};
        }
      }
      assert existing[..|existing|] == existing;
    }

    static method Deduplicate(existing: seq<string>, newKeys: seq<string>) returns (deduped: seq<string>)
      requires NonBlank(newKeys)
      ensures deduped == Drop(Uniq(newKeys), TrimmedKeys(existing))
    {
      var seen := SeenKeys(existing);
      deduped := DropSeen(newKeys, seen);
      UniqNames(newKeys);
      assert "" !in Names(Uniq(newKeys));
      assert Names(Uniq(newKeys)) - seen == Names(Uniq(newKeys)) - TrimmedKeys(existing);
    }

    static method DropSeen(newKeys: seq<string>, known: set<string>) returns (deduped: seq<string>)
      requires NonBlank(newKeys)
      ensures deduped == Drop(Uniq(newKeys), known)
    {
      var seen := known;
      deduped := [];
      for i := 0 to |newKeys|
        invariant deduped == Drop(Uniq(newKeys[..i]), known)
        invariant seen == known + Names(newKeys[..i])
      {
        var key := TrimSpace(newKeys[i]);
        NonBlankAt(newKeys, i);
        assert newKeys[..i + 1] == newKeys[..i] + [key];
        DropUniqPush(newKeys[..i], key, known);
        if key !in seen {
          seen := seen + {key};
          deduped := deduped + [key];
        }
      }
      assert newKeys[..|newKeys|] == newKeys;
    }

    /** A single-key channel gains keys and becomes a multi-key one. */
    method Convert(input: string) returns (converted: bool)
      modifies this
      ensures converted == (|ConvertedKeys(old(View()), input)| >= 2)
      ensures View() == AfterConvert(old(View()), input)
    {
      var lines := [TrimSpace(text)] + Split(input, '\n');
      var keys: seq<string> := [];
      for i := 0 to |lines|
        modifies {}
        invariant keys == Uniq(TrimAll(lines[..i]))
      {
        assert lines[..i + 1][..i] == lines[..i];
        var key := TrimSpace(lines[i]);
        var trimmed := TrimAll(lines[..i]);
        assert (trimmed + [key])[..|trimmed|] == trimmed;
        if key == "" || key in keys {
          continue;
        }
        keys := keys + [key];
      }
      assert lines[..|lines|] == lines;
      converted := |keys| >= 2;
      if converted {
        Save(Join(keys, '\n'));
      }
    }

    /** UpdateChannel with a new key column: state follows each key by occurrence. */
    method ReplaceKeys(input: string)
      modifies this
      ensures View() == AfterReplace(old(View()), input)
    {
      if input == "" {
        Save("");
        return;
      }
      var before, after := ReadList(text, '\n'), ReadList(input, '\n');
      var notes := CarryByRank(Notes(status, time, reason), before, after);
      status, time, reason := notes.status, notes.time, notes.reason;
      Save(input);
    }
  }
}
