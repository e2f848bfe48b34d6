/**
 buildDifferences of controller/ratio_sync.go: several passes over local and upstream
 pricing tables. Prices are reals. The nested result map[model][field] is kept as one map
 on pairs; the code deletes inner maps that become empty, so the two say the same.
 */
module PriceDiff {

  const EPSILON: real := 0.000000001

  const FIELDS: seq<string> := [
    "model_ratio", "completion_ratio", "cache_ratio", "create_cache_ratio", "image_ratio",
    "audio_ratio", "audio_completion_ratio", "model_price", "billing_mode", "billing_expr"]

  /** A decoded JSON value of a pricing table. */
  datatype Value = Null | Num(r: real) | Str(s: string)

  const SAME: Value := Str("same")

  /** nearlyEqual */
  predicate NearlyEqual(a: real, b: real) {
    if a > b then a - b < EPSILON else b - a < EPSILON
  }

  /** valuesEqual */
  predicate ValuesEqual(a: Value, b: Value) {
    if a.Num? && b.Num? then NearlyEqual(a.r, b.r) else a == b
  }

  type Table = map<string, map<string, Value>>

  datatype Channel = Channel(name: string, data: Table)

  /** What a table holds for a model in a field. */
  datatype Cell = Missing | Has(v: Value)

  function At(data: Table, model: string, field: string): Cell {
    if field in data && model in data[field] then Has(data[field][model]) else Missing
  }

  /** A missing local value and a null one are the same nil. */
  function Local(data: Table, model: string, field: string): Value {
    match At(data, model, field)
    case Has(v) => v
    case Missing => Null
  }

  /** What the comparison shows for one channel. */
  function Shown(local: Value, cell: Cell): Value {
    match cell
    case Missing => if local == Null then SAME else Null
    case Has(v) =>
      if local != Null && !ValuesEqual(local, v) then v
      else if ValuesEqual(local, v) then SAME
      else if v == Null && local == Null then SAME
      else v
  }

  /** A channel makes hasDifference true. */
  predicate Stirs(local: Value, cell: Cell) {
    || (cell.Has? && local != Null && !ValuesEqual(local, cell.v))
    || (local == Null && Shown(local, cell) != Null && Shown(local, cell) != SAME)
  }

  /** The placeholder pair 37.5 and 1 marks a price that was never configured. */
  predicate Trusted(ch: Channel, model: string) {
    var ratio, completion := Local(ch.data, model, "model_ratio"), Local(ch.data, model, "completion_ratio");
    !(ratio.Num? && completion.Num? && NearlyEqual(ratio.r, 37.5) && NearlyEqual(completion.r, 1.0))
  }

  datatype Entry = Entry(current: Value, upstreams: map<string, Value>, confidence: map<string, bool>)

  /** One column per channel name; a repeated name keeps the last. */
  function Columns(channels: seq<Channel>, local: Value, model: string, field: string): map<string, Value> {
    if channels == [] then map[]
    else
      var last := channels[|channels| - 1];
      Columns(channels[..|channels| - 1], local, model, field)[last.name := Shown(local, At(last.data, model, field))]
  }

  function Confidence(channels: seq<Channel>, model: string): map<string, bool> {
    if channels == [] then map[]
    else
      var last := channels[|channels| - 1];
      Confidence(channels[..|channels| - 1], model)[last.name := Trusted(last, model)]
  }

  predicate AnyStirs(channels: seq<Channel>, local: Value, model: string, field: string) {
    exists i :: 0 <= i < |channels| && Stirs(local, At(channels[i].data, model, field))
  }

  predicate AnyHas(channels: seq<Channel>, model: string, field: string) {
    exists i :: 0 <= i < |channels| && At(channels[i].data, model, field).Has?
  }

  type Key = (string, string)

  function Row(local: Table, channels: seq<Channel>, key: Key): Entry {
    var current := Local(local, key.0, key.1);
    Entry(current, Columns(channels, current, key.0, key.1), Confidence(channels, key.0))
  }

  /** The first pass lists a row. */
  predicate Listed(local: Table, channels: seq<Channel>, key: Key) {
    var current := Local(local, key.0, key.1);
    if current != Null then AnyStirs(channels, current, key.0, key.1) else AnyHas(channels, key.0, key.1)
  }

  function ModelsIn(data: Table): set<string> {
    set f, m | f in FIELDS && f in data && m in data[f] :: m
  }

  function AllModels(local: Table, channels: seq<Channel>): set<string> {
    ModelsIn(local) + set i, m | 0 <= i < |channels| && m in ModelsIn(channels[i].data) :: m
  }

  function AllKeys(models: set<string>): set<Key> {
    set m, f | m in models && f in FIELDS :: (m, f)
  }

  /** Not nil and not "same": the value counts as a difference of its channel. */
  predicate Loud(v: Value) {
    v != Null && v != SAME
  }

  function LoudNames(rows: map<Key, Entry>): set<string> {
    set k, n | k in rows && n in rows[k].upstreams && Loud(rows[k].upstreams[n]) :: n
  }

  /** What the last pass leaves of a row: the columns of channels that differ somewhere. */
  function Trimmed(row: Entry, loud: set<string>): Entry {
    Entry(row.current,
          map n | n in row.upstreams && n in loud :: row.upstreams[n],
          map n | n in row.confidence && (n in loud || n !in row.upstreams) :: row.confidence[n])
  }

  predicate Survives(row: Entry) {
    exists n :: n in row.upstreams && row.upstreams[n] != SAME
  }

  function Listing(local: Table, channels: seq<Channel>): map<Key, Entry> {
    map k | k in AllKeys(AllModels(local, channels)) && Listed(local, channels, k) :: Row(local, channels, k)
  }

  /** The result of all passes together. */
  function Differences(local: Table, channels: seq<Channel>): map<Key, Entry> {
    var rows := Listing(local, channels);
    var loud := LoudNames(rows);
    map k | k in rows && Survives(Trimmed(rows[k], loud)) :: Trimmed(rows[k], loud)
  }

  // ---------------------------------------------------------------- the passes

  /** The loop over channels for one model and field. */
  method CompareChannels(channels: seq<Channel>, local: Value, model: string, field: string)
    returns (upstreams: map<string, Value>, confidence: map<string, bool>, hasUpstream: bool, hasDifference: bool)
    ensures upstreams == Columns(channels, local, model, field) && confidence == Confidence(channels, model)
    ensures hasUpstream == AnyHas(channels, model, field)
    ensures hasDifference == AnyStirs(channels, local, model, field)
  {
    upstreams, confidence, hasUpstream, hasDifference := map[], map[], false, false;
    for i := 0 to |channels|
      invariant upstreams == Columns(channels[..i], local, model, field) &&
                confidence == Confidence(channels[..i], model)
      invariant hasUpstream == AnyHas(channels[..i], model, field)
      invariant hasDifference == AnyStirs(channels[..i], local, model, field)
    {
      var ch := channels[i];
      AnyPush(channels, i, local, model, field);
      assert channels[..i + 1][..i] == channels[..i];
      var value := Null;
      var cell := At(ch.data, model, field);
      if cell.Has? {
        value, hasUpstream := cell.v, true;
        if local != Null && !ValuesEqual(local, value) {
          hasDifference := true;
        } else if ValuesEqual(local, value) {
          value := SAME;
        }
      }
      if value == Null && local == Null {
        value := SAME;
      }
      if local == Null && value != Null && value != SAME {
        hasDifference := true;
      }
      upstreams := upstreams[ch.name := value];
      confidence := confidence[ch.name := Trusted(ch, model)];
    }
    assert channels[..|channels|] == channels;
  }

  lemma AnyPush(channels: seq<Channel>, i: int, local: Value, model: string, field: string)
    requires 0 <= i < |channels|
    ensures AnyHas(channels[..i + 1], model, field) <==>
            AnyHas(channels[..i], model, field) || At(channels[i].data, model, field).Has?
    ensures AnyStirs(channels[..i + 1], local, model, field) <==>
            AnyStirs(channels[..i], local, model, field) || Stirs(local, At(channels[i].data, model, field))
  {
    var more, fewer := channels[..i + 1], channels[..i];
    assert more[i] == channels[i];
    assert forall k :: 0 <= k < i ==> more[k] == fewer[k];
  }

  /** The row for one model and field, if it is listed. */
  method ListRow(local: Table, channels: seq<Channel>, key: Key) returns (listed: bool, row: Entry)
    ensures listed == Listed(local, channels, key) && row == Row(local, channels, key)
  {
    var current := Local(local, key.0, key.1);
    var upstreams, confidence, hasUpstream, hasDifference := CompareChannels(channels, current, key.0, key.1);
    listed := if current != Null then hasDifference else hasUpstream;
    row := Entry(current, upstreams, confidence);
  }

  /** First pass: one row per model and field that has something to show. */
  method ListRows(local: Table, channels: seq<Channel>, models: set<string>) returns (rows: map<Key, Entry>)
    ensures rows == map k | k in AllKeys(models) && Listed(local, channels, k) :: Row(local, channels, k)
  {
    rows := map[];
    var keys := AllKeys(models);
    var todo := keys;
    while todo != {}
      invariant todo <= keys && rows.Keys <= keys - todo
      invariant forall k :: k in keys && k !in todo ==> (k in rows <==> Listed(local, channels, k))
      invariant forall k :: k in rows ==> rows[k] == Row(local, channels, k)
      decreases todo
    {
      var key :| key in todo;
      var listed, row := ListRow(local, channels, key);
      if listed {
        rows := rows[key := row];
      }
      todo := todo - {key};
    }
  }

  /** Second pass: which channels differ in some row. */
  method FindLoud(rows: map<Key, Entry>) returns (loud: set<string>)
    ensures loud == LoudNames(rows)
  {
    loud := {};
    var todo := rows.Keys;
    while todo != {}
      invariant todo <= rows.Keys
      invariant loud == set k, n | k in rows && k !in todo && n in rows[k].upstreams && Loud(rows[k].upstreams[n]) :: n
      decreases todo
    {
      var key :| key in todo;
      var upstreams := rows[key].upstreams;
      loud := loud + set n | n in upstreams && Loud(upstreams[n]);
      todo := todo - {key};
    }
  }

  /** Third pass: drop quiet channels, then rows in which all that is left is "same". */
  method TrimRows(rows: map<Key, Entry>, loud: set<string>) returns (result: map<Key, Entry>)
    ensures result == map k | k in rows && Survives(Trimmed(rows[k], loud)) :: Trimmed(rows[k], loud)
  {
    result := rows;
    var todo := rows.Keys;
    while todo != {}
      invariant todo <= rows.Keys && todo <= result.Keys <= rows.Keys
      invariant forall k :: k in rows && k !in todo ==> (k in result <==> Survives(Trimmed(rows[k], loud)))
      invariant forall k :: k in result ==> result[k] == if k in todo then rows[k] else Trimmed(rows[k], loud)
      decreases todo
    {
      var key :| key in todo;
      var item := Trimmed(result[key], loud);
      var allSame := forall n :: n in item.upstreams ==> item.upstreams[n] == SAME;
      if allSame {
        result := result - {key};
      } else {
        result := result[key := item];
      }
      todo := todo - {key};
    }
  }

  /** buildDifferences */
  method BuildDifferences(local: Table, channels: seq<Channel>) returns (result: map<Key, Entry>)
    ensures result == Differences(local, channels)
  {
    var rows := ListRows(local, channels, AllModels(local, channels));
    var loud := FindLoud(rows);
    result := TrimRows(rows, loud);
  }

  // ---------------------------------------------------------------- what the result means

  /** The one-line meaning: the channel has a value, and the local one is missing or not equal to it. */
  predicate Differs(local: Table, ch: Channel, key: Key) {
    var mine, theirs := At(local, key.0, key.1), At(ch.data, key.0, key.1);
    theirs.Has? && (mine.Missing? || !ValuesEqual(mine.v, theirs.v))
  }

  /** It differs, and with a value that is neither null nor the word "same". */
  predicate Speaks(local: Table, ch: Channel, key: Key) {
    Differs(local, ch, key) && Loud(At(ch.data, key.0, key.1).v)
  }

  predicate SpeaksSomewhere(local: Table, ch: Channel) {
    exists k :: k in AllKeys(ModelsIn(ch.data)) && Speaks(local, ch, k)
  }

  predicate DiffersSomewhere(local: Table, ch: Channel) {
    exists k :: k in AllKeys(ModelsIn(ch.data)) && Differs(local, ch, k)
  }

  predicate NoNulls(data: Table) {
    forall f, m :: f in data && m in data[f] ==> data[f][m] != Null
  }

  predicate NoSames(data: Table) {
    forall f, m :: f in data && m in data[f] ==> data[f][m] != SAME
  }

  predicate DistinctNames(channels: seq<Channel>) {
    forall i, j :: 0 <= i < j < |channels| ==> channels[i].name != channels[j].name
  }

  /** Distinct channel names, no nulls anywhere, and no channel that sends the word "same". */
  predicate CleanInputs(local: Table, channels: seq<Channel>) {
    && DistinctNames(channels)
    && NoNulls(local)
    && forall i :: 0 <= i < |channels| ==> NoNulls(channels[i].data) && NoSames(channels[i].data)
  }

  lemma {:induction false} ColumnNames(channels: seq<Channel>, local: Value, model: string, field: string, n: string)
    ensures n in Columns(channels, local, model, field) <==> exists i :: 0 <= i < |channels| && channels[i].name == n
  {
    if channels != [] {
      var init := channels[..|channels| - 1];
      ColumnNames(init, local, model, field, n);
      if i :| 0 <= i < |init| && init[i].name == n {
        assert channels[i].name == n;
      }
      if i :| 0 <= i < |channels| && channels[i].name == n {
        assert i < |init| ==> init[i].name == n;
      }
    }
  }

  lemma {:induction false} ColumnAt(channels: seq<Channel>, local: Value, model: string, field: string, i: int)
    requires 0 <= i < |channels|
    requires DistinctNames(channels)
    ensures var columns := Columns(channels, local, model, field);
            channels[i].name in columns && columns[channels[i].name] == Shown(local, At(channels[i].data, model, field))
  {
    if i < |channels| - 1 {
      ColumnAt(channels[..|channels| - 1], local, model, field, i);
    }
  }

  lemma {:induction false} ConfidenceAt(channels: seq<Channel>, model: string, n: string)
    requires DistinctNames(channels)
    ensures n in Confidence(channels, model) <==> exists i :: 0 <= i < |channels| && channels[i].name == n
    ensures forall i :: 0 <= i < |channels| && channels[i].name == n ==>
            Confidence(channels, model)[n] == Trusted(channels[i], model)
  {
    if channels != [] {
      var init := channels[..|channels| - 1];
      ConfidenceAt(init, model, n);
      assert forall i :: 0 <= i < |init| ==> init[i] == channels[i];
    }
  }

  /** What the comparison shows is loud exactly when the channel speaks there. */
  lemma LoudIsSpeaking(local: Table, channels: seq<Channel>, i: int, key: Key)
    requires DistinctNames(channels) && 0 <= i < |channels|
    ensures var row := Row(local, channels, key);
            && channels[i].name in row.upstreams
            && row.upstreams[channels[i].name] == Shown(row.current, At(channels[i].data, key.0, key.1))
            && (Loud(row.upstreams[channels[i].name]) <==> Speaks(local, channels[i], key))
  {
    ColumnAt(channels, Local(local, key.0, key.1), key.0, key.1, i);
  }

  /** A row is listed when some channel differs, and a row for a missing price also when all values are null. */
  lemma ListedByDiffering(local: Table, channels: seq<Channel>, key: Key)
    ensures (exists i :: 0 <= i < |channels| && Differs(local, channels[i], key)) ==> Listed(local, channels, key)
    ensures Listed(local, channels, key) && Local(local, key.0, key.1) != Null ==>
              exists i :: 0 <= i < |channels| && Differs(local, channels[i], key)
  {
    var current := Local(local, key.0, key.1);
    if i :| 0 <= i < |channels| && Differs(local, channels[i], key) {
      var cell := At(channels[i].data, key.0, key.1);
      assert cell.Has? && (current != Null ==> Stirs(current, cell));
    }
    if Listed(local, channels, key) && current != Null {
      var i :| 0 <= i < |channels| && Stirs(current, At(channels[i].data, key.0, key.1));
      assert Differs(local, channels[i], key);
    }
  }

  lemma DifferingKeyIsKnown(local: Table, channels: seq<Channel>, i: int, key: Key)
    requires 0 <= i < |channels| && key.1 in FIELDS && Differs(local, channels[i], key)
    ensures key in AllKeys(ModelsIn(channels[i].data)) && key in AllKeys(AllModels(local, channels))
    ensures key in Listing(local, channels)
  {
    var data := channels[i].data;
    assert key.1 in data && key.0 in data[key.1];
    assert key.0 in ModelsIn(data);
    assert key.0 in AllModels(local, channels);
    ListedByDiffering(local, channels, key);
  }

  /** A channel's name is loud exactly when the channel speaks somewhere. */
  lemma LoudExactly(local: Table, channels: seq<Channel>, i: int)
    requires DistinctNames(channels) && 0 <= i < |channels|
    ensures channels[i].name in LoudNames(Listing(local, channels)) <==> SpeaksSomewhere(local, channels[i])
  {
    var rows, name := Listing(local, channels), channels[i].name;
    if name in LoudNames(rows) {
      var k :| k in rows && name in rows[k].upstreams && Loud(rows[k].upstreams[name]);
      LoudIsSpeaking(local, channels, i, k);
      DifferingKeyIsKnown(local, channels, i, k);
    }
    if SpeaksSomewhere(local, channels[i]) {
      var k :| k in AllKeys(ModelsIn(channels[i].data)) && Speaks(local, channels[i], k);
      DifferingKeyIsKnown(local, channels, i, k);
      LoudIsSpeaking(local, channels, i, k);
    }
  }

  /** The channel speaks somewhere, and at this key it is not shown as the same. */
  predicate Stands(local: Table, ch: Channel, key: Key) {
    SpeaksSomewhere(local, ch) && Shown(Local(local, key.0, key.1), At(ch.data, key.0, key.1)) != SAME
  }

  /**
   All the passes together keep a model and field exactly when some channel differs there and
   some channel that speaks anywhere is not shown as the same there.
   */
  lemma SurvivesExactly(local: Table, channels: seq<Channel>, key: Key)
    requires DistinctNames(channels) && key.1 in FIELDS
    ensures key in Differences(local, channels) <==>
            && (exists i :: 0 <= i < |channels| && Differs(local, channels[i], key))
            && (exists i :: 0 <= i < |channels| && Stands(local, channels[i], key))
  {
    var rows := Listing(local, channels);
    var loud := LoudNames(rows);
    if key in Differences(local, channels) {
      var i := SurvivorStands(local, channels, key);
      ListedByDiffering(local, channels, key);
      assert Local(local, key.0, key.1) == Null ==> Differs(local, channels[i], key);
    }
    if (exists i :: 0 <= i < |channels| && Differs(local, channels[i], key)) {
      var k :| 0 <= k < |channels| && Differs(local, channels[k], key);
      DifferingKeyIsKnown(local, channels, k, key);
      if i :| 0 <= i < |channels| && Stands(local, channels[i], key) {
        LoudExactly(local, channels, i);
        LoudIsSpeaking(local, channels, i, key);
        assert channels[i].name in Trimmed(rows[key], loud).upstreams;
      }
    }
  }

  lemma SurvivorStands(local: Table, channels: seq<Channel>, key: Key) returns (i: int)
    requires DistinctNames(channels) && key in Differences(local, channels)
    ensures 0 <= i < |channels| && Stands(local, channels[i], key)
  {
    var rows := Listing(local, channels);
    var row := Trimmed(rows[key], LoudNames(rows));
    var n :| n in row.upstreams && row.upstreams[n] != SAME;
    ColumnNames(channels, Local(local, key.0, key.1), key.0, key.1, n);
    i :| 0 <= i < |channels| && channels[i].name == n;
    LoudExactly(local, channels, i);
    LoudIsSpeaking(local, channels, i, key);
  }

  /** Without nulls and without the word "same", differing is speaking. */
  lemma CleanSpeaks(local: Table, channels: seq<Channel>, i: int, key: Key)
    requires CleanInputs(local, channels) && 0 <= i < |channels|
    ensures Speaks(local, channels[i], key) <==> Differs(local, channels[i], key)
    ensures SpeaksSomewhere(local, channels[i]) <==> DiffersSomewhere(local, channels[i])
  {
    forall k
      ensures Speaks(local, channels[i], k) <==> Differs(local, channels[i], k)
    {
      var cell := At(channels[i].data, k.0, k.1);
      assert cell.Has? ==> Loud(cell.v);
    }
  }

  /** So on clean inputs an entry survives exactly when some channel differs there. */
  lemma SurvivesOnCleanInputs(local: Table, channels: seq<Channel>, key: Key)
    requires CleanInputs(local, channels) && key.1 in FIELDS
    ensures key in Differences(local, channels) <==> exists i :: 0 <= i < |channels| && Differs(local, channels[i], key)
  {
    SurvivesExactly(local, channels, key);
    if i :| 0 <= i < |channels| && Differs(local, channels[i], key) {
      DifferingStands(local, channels, i, key);
    }
  }

  lemma DifferingStands(local: Table, channels: seq<Channel>, i: int, key: Key)
    requires CleanInputs(local, channels) && key.1 in FIELDS && 0 <= i < |channels| && Differs(local, channels[i], key)
    ensures Stands(local, channels[i], key)
  {
    DifferingKeyIsKnown(local, channels, i, key);
    CleanSpeaks(local, channels, i, key);
    LoudIsSpeaking(local, channels, i, key);
  }

  /**
   A surviving row lists exactly the channels that speak somewhere, each with what the
   comparison shows for it and with its confidence, next to the local value.
   */
  lemma RowListsSpeakingChannels(local: Table, channels: seq<Channel>, key: Key, n: string)
    requires DistinctNames(channels) && key in Differences(local, channels)
    ensures var row := Differences(local, channels)[key];
            && row.current == Local(local, key.0, key.1)
            && (n in row.upstreams <==>
                exists i :: 0 <= i < |channels| && channels[i].name == n && SpeaksSomewhere(local, channels[i]))
            && (n in row.confidence <==> n in row.upstreams)
            && forall i :: 0 <= i < |channels| && channels[i].name == n && n in row.upstreams ==>
                 && row.upstreams[n] == Shown(row.current, At(channels[i].data, key.0, key.1))
                 && row.confidence[n] == Trusted(channels[i], key.0)
  {
    var loud, current := LoudNames(Listing(local, channels)), Local(local, key.0, key.1);
    ColumnNames(channels, current, key.0, key.1, n);
    ConfidenceAt(channels, key.0, n);
    forall i | 0 <= i < |channels|
      ensures channels[i].name in loud <==> SpeaksSomewhere(local, channels[i])
      ensures channels[i].name in Columns(channels, current, key.0, key.1)
      ensures Columns(channels, current, key.0, key.1)[channels[i].name] ==
              Shown(current, At(channels[i].data, key.0, key.1))
    {
      LoudExactly(local, channels, i);
      ColumnAt(channels, current, key.0, key.1, i);
    }
  }

  // ---------------------------------------------------------------- why the inputs must be clean

  /** Without a loud channel nothing survives. */
  lemma QuietVanishes(local: Table, channels: seq<Channel>)
    requires LoudNames(Listing(local, channels)) == {}
    ensures Differences(local, channels) == map[]
  {
    var rows := Listing(local, channels);
    forall k | k in rows
      ensures !Survives(Trimmed(rows[k], {}))
    {}
  }

  /** A channel that sends null for a configured price disagrees, and is not reported. */
  lemma NullVanishes(model: string, price: real, name: string)
    ensures var local := map["model_price" := map[model := Num(price)]];
            var ch := Channel(name, map["model_price" := map[model := Null]]);
            Differs(local, ch, (model, "model_price")) && Differences(local, [ch]) == map[]
  {
    var local: Table := map["model_price" := map[model := Num(price)]];
    var ch := Channel(name, map["model_price" := map[model := Null]]);
    OneQuietChannel(local, ch);
  }

  /** So is a channel whose new billing mode happens to read "same". */
  lemma SameVanishes(model: string, name: string)
    ensures var ch := Channel(name, map["billing_mode" := map[model := SAME]]);
            Differs(map[], ch, (model, "billing_mode")) && Differences(map[], [ch]) == map[]
  {
    OneQuietChannel(map[], Channel(name, map["billing_mode" := map[model := SAME]]));
  }

  lemma OneQuietChannel(local: Table, ch: Channel)
    requires forall m, f :: !Loud(Shown(Local(local, m, f), At(ch.data, m, f)))
    ensures Differences(local, [ch]) == map[]
  {
    var rows := Listing(local, [ch]);
    forall k, n | k in rows && n in rows[k].upstreams
      ensures !Loud(rows[k].upstreams[n])
    {
      var current := Local(local, k.0, k.1);
      assert [ch][..0] == [];
      assert Columns([ch], current, k.0, k.1) == map[ch.name := Shown(current, At(ch.data, k.0, k.1))];
    }
    QuietVanishes(local, [ch]);
  }
}
