/** Comparing the local price tables with those of several upstream channels: a pass that
    records every differing (model, field), a pass that finds the channels with any
    difference, and a pass that prunes the rest in place. */
module RatioDiff {
  import opened Basics
  import ModelsDev

  /** A table entry after decoding and normalisation; numbers are reals. */
  datatype Value = Null | Number(r: real) | Text(s: string) | Truth(b: bool)

  type Data = map<string, map<string, Value>>

  datatype Channel = Channel(name: string, data: Data)

  datatype Item = Item(current: Value, upstreams: map<string, Value>, confidence: map<string, bool>)

  type Differences = map<string, Row>

  const SAME: Value := Text("same")

  const PRICING_SYNC_FIELDS: seq<string> := [
    "model_ratio", "completion_ratio", "cache_ratio", "create_cache_ratio", "image_ratio",
    "audio_ratio", "audio_completion_ratio", "model_price", "billing_mode", "billing_expr"]

  function ValuesEqual(a: Value, b: Value): bool {
    if a.Number? && b.Number? then ModelsDev.NearlyEqual(a.r, b.r) else a == b
  }

  /** valueMap(data[field]): a missing field is an empty table. */
  function Table(data: Data, field: string): map<string, Value> {
    if field in data then data[field] else map[]
  }

  function ValueOf(data: Data, model: string, field: string): Option<Value> {
    if model in Table(data, field) then Some(Table(data, field)[model]) else None
  }

  /** The local value; a missing one is null. */
  function Current(local: Data, model: string, field: string): Value {
    if model in Table(local, field) then Table(local, field)[model] else Null
  }

  type Row = map<string, Item>

  function At(row: Row, field: string): Option<Item> {
    if field in row then Some(row[field]) else None
  }

  function RowOf(d: Differences, model: string): Row {
    if model in d then d[model] else map[]
  }

  function Entry(d: Differences, model: string, field: string): Option<Item> {
    At(RowOf(d, model), field)
  }

  // ---------- what the passes compute ----------

  /** What is shown for one channel. */
  function Cell(current: Value, upstream: Option<Value>): Value {
    var shown := if upstream.Some? && !ValuesEqual(current, upstream.value) then upstream.value
                 else if upstream.Some? then SAME
                 else Null;
    if shown == Null && current == Null then SAME else shown
  }

  /** A channel is distrusted for a model priced at the placeholder ratios 37.5 and 1. */
  predicate Trusted(channel: Channel, model: string) {
    var ratio, completion :=
      ValueOf(channel.data, model, "model_ratio"), ValueOf(channel.data, model, "completion_ratio");
    !(ratio.Some? && completion.Some? && ratio.value.Number? && completion.value.Number?
      && ModelsDev.NearlyEqual(ratio.value.r, 37.5) && ModelsDev.NearlyEqual(completion.value.r, 1.0))
  }

  /** Of several channels with one name, the last one counts. */
  function Upstreams(local: Data, channels: seq<Channel>, n: nat, model: string, field: string): map<string, Value>
    requires n <= |channels|
  {
    if n == 0 then map[]
    else
      var channel := channels[n - 1];
      Upstreams(local, channels, n - 1, model, field)[channel.name :=
        Cell(Current(local, model, field), ValueOf(channel.data, model, field))]
  }

  function Trusts(channels: seq<Channel>, n: nat, model: string): (trust: map<string, bool>)
    requires n <= |channels|
    ensures forall i :: 0 <= i < n ==> channels[i].name in trust
  {
    if n == 0 then map[]
    else Trusts(channels, n - 1, model)[channels[n - 1].name := Trusted(channels[n - 1], model)]
  }

  /** Some channel gives a value (possibly null) that is not the local one. */
  predicate Included(local: Data, channels: seq<Channel>, model: string, field: string) {
    IncludedUpTo(Current(local, model, field), channels, |channels|, model, field)
  }

  predicate IncludedUpTo(current: Value, channels: seq<Channel>, n: nat, model: string, field: string)
    requires n <= |channels|
  {
    exists i :: 0 <= i < n && DeviatesAt(current, channels[i], model, field)
  }

  predicate DeviatesAt(current: Value, channel: Channel, model: string, field: string) {
    Deviates(current, ValueOf(channel.data, model, field))
  }

  predicate Deviates(current: Value, upstream: Option<Value>) {
    upstream.Some? && (current == Null || !ValuesEqual(current, upstream.value))
  }

  function Recorded(local: Data, channels: seq<Channel>, model: string, field: string): Option<Item> {
    if field in PRICING_SYNC_FIELDS && Included(local, channels, model, field) then
      Some(Item(Current(local, model, field), Upstreams(local, channels, |channels|, model, field),
        Trusts(channels, |channels|, model)))
    else None
  }

  predicate Shows(item: Option<Item>, name: string) {
    item.Some? && name in item.value.upstreams && item.value.upstreams[name] != Null
      && item.value.upstreams[name] != SAME
  }

  /** A channel is listed when it shows a value anywhere. */
  ghost predicate Listed(local: Data, channels: seq<Channel>, name: string) {
    exists model, field :: Shows(Recorded(local, channels, model, field), name)
  }

  predicate AllSame(upstreams: map<string, Value>) {
    forall name :: name in upstreams ==> upstreams[name] == SAME
  }

  /** An entry cut down to the given channels; one that says "same" throughout is dropped. */
  function Pruned(item: Option<Item>, names: set<string>): Option<Item> {
    if item.None? then None
    else
      var dropped := item.value.upstreams.Keys - names;
      var upstreams := item.value.upstreams - dropped;
      if AllSame(upstreams) then None else Some(Item(item.value.current, upstreams, item.value.confidence - dropped))
  }

  // ---------- the passes ----------

  method CollectModels(local: Data, channels: seq<Channel>) returns (models: set<string>)
    ensures forall model, field :: field in PRICING_SYNC_FIELDS && Included(local, channels, model, field) ==>
      model in models
  {
    models := {};
    for f := 0 to |PRICING_SYNC_FIELDS| {
      models := models + Table(local, PRICING_SYNC_FIELDS[f]).Keys;
    }
    for i := 0 to |channels|
      invariant forall j, field :: 0 <= j < i && field in PRICING_SYNC_FIELDS ==>
        Table(channels[j].data, field).Keys <= models
    {
      for f := 0 to |PRICING_SYNC_FIELDS|
        invariant forall j, field :: 0 <= j < i && field in PRICING_SYNC_FIELDS ==>
          Table(channels[j].data, field).Keys <= models
        invariant forall g :: 0 <= g < f ==> Table(channels[i].data, PRICING_SYNC_FIELDS[g]).Keys <= models
      {
        models := models + Table(channels[i].data, PRICING_SYNC_FIELDS[f]).Keys;
      }
    }
  }

  /** The preprocessing pass for one channel. */
  method AssessChannel(channel: Channel, models: set<string>) returns (trust: map<string, bool>)
    ensures trust.Keys == models
    ensures forall model :: model in models ==> trust[model] == Trusted(channel, model)
  {
    trust := map[];
    var modelRatios, completionRatios := Table(channel.data, "model_ratio"), Table(channel.data, "completion_ratio");
    if |modelRatios| > 0 && |completionRatios| > 0 {
      var pending := models;
      while pending != {}
        invariant pending <= models && trust.Keys == models - pending
        invariant forall model :: model in trust ==> trust[model] == Trusted(channel, model)
        decreases |pending|
      {
        var modelName :| modelName in pending;
        pending := pending - {modelName};
        trust := trust[modelName := true];
        if modelName in modelRatios && modelName in completionRatios {
          var ratio, completion := modelRatios[modelName], completionRatios[modelName];
          if ratio.Number? && completion.Number?
            && ModelsDev.NearlyEqual(ratio.r, 37.5) && ModelsDev.NearlyEqual(completion.r, 1.0) {
            trust := trust[modelName := false];
          }
        }
      }
    } else {
      trust := map model | model in models :: true;
      assert modelRatios == map[] || completionRatios == map[];
    }
  }

  method AssessChannels(channels: seq<Channel>, models: set<string>) returns (trust: map<string, map<string, bool>>)
    ensures forall i :: 0 <= i < |channels| ==> channels[i].name in trust && trust[channels[i].name].Keys == models
    ensures forall model, i :: model in models && 0 <= i < |channels| ==>
      trust[channels[i].name][model] == Trusts(channels, |channels|, model)[channels[i].name]
  {
    trust := map[];
    for i := 0 to |channels|
      invariant forall model :: Trusts(channels, i, model).Keys == trust.Keys
      invariant forall name :: name in trust ==> trust[name].Keys == models
      invariant forall name, model :: name in trust && model in models ==>
        trust[name][model] == Trusts(channels, i, model)[name]
      invariant forall j :: 0 <= j < i ==> channels[j].name in trust
    {
      var assessed := AssessChannel(channels[i], models);
      trust := trust[channels[i].name := assessed];
    }
  }

  /** One channel's value against the local one. */
  method CompareValue(localValue: Value, upstream: Option<Value>) returns (shown: Value, differs: bool)
    ensures shown == Cell(localValue, upstream)
    ensures localValue != Null ==> (differs <==> Deviates(localValue, upstream))
  {
    shown, differs := Null, false;
    if upstream.Some? {
      shown := upstream.value;
      if localValue != Null && !ValuesEqual(localValue, shown) {
        differs := true;
      } else if ValuesEqual(localValue, shown) {
        shown := SAME;
      }
    }
    if shown == Null && localValue == Null {
      shown := SAME;
    }
    if localValue == Null && shown != Null && shown != SAME {
      differs := true;
    }
  }

  ghost predicate Assessed(trust: map<string, map<string, bool>>, channels: seq<Channel>, model: string) {
    forall i :: 0 <= i < |channels| ==>
      channels[i].name in trust && model in trust[channels[i].name]
      && trust[channels[i].name][model] == Trusts(channels, |channels|, model)[channels[i].name]
  }

  /** The confidence column read off the assessment. */
  ghost function Confidences(trust: map<string, map<string, bool>>, channels: seq<Channel>, n: nat,
      model: string): map<string, bool>
    requires n <= |channels| && Assessed(trust, channels, model)
  {
    if n == 0 then map[]
    else Confidences(trust, channels, n - 1, model)[channels[n - 1].name := trust[channels[n - 1].name][model]]
  }

  lemma ConfidencesAreTrusts(trust: map<string, map<string, bool>>, channels: seq<Channel>, n: nat, model: string)
    requires n <= |channels| && Assessed(trust, channels, model)
    ensures Confidences(trust, channels, n, model).Keys == Trusts(channels, n, model).Keys
    ensures n == |channels| ==> Confidences(trust, channels, n, model) == Trusts(channels, n, model)
    ensures forall name :: name in Confidences(trust, channels, n, model) ==>
      name in Trusts(channels, |channels|, model)
      && Confidences(trust, channels, n, model)[name] == Trusts(channels, |channels|, model)[name]
  {
    if n > 0 {
      ConfidencesAreTrusts(trust, channels, n - 1, model);
    }
  }

  lemma IncludedNext(current: Value, channels: seq<Channel>, n: nat, model: string, field: string)
    requires n < |channels|
    ensures IncludedUpTo(current, channels, n + 1, model, field) <==>
      IncludedUpTo(current, channels, n, model, field) || DeviatesAt(current, channels[n], model, field)
  {
    if IncludedUpTo(current, channels, n, model, field) {
      var i :| 0 <= i < n && DeviatesAt(current, channels[i], model, field);
      assert DeviatesAt(current, channels[i], model, field);
    }
  }

  /** The comparison of one (model, field) across the channels. */
  method CompareField(local: Data, channels: seq<Channel>, trust: map<string, map<string, bool>>,
      modelName: string, field: string)
    returns (item: Option<Item>)
    requires field in PRICING_SYNC_FIELDS && Assessed(trust, channels, modelName)
    ensures item == Recorded(local, channels, modelName, field)
  {
    var localValue := Current(local, modelName, field);
    var upstreamValues: map<string, Value> := map[];
    var confidenceValues: map<string, bool> := map[];
    var hasUpstreamValue, hasDifference := false, false;
    for i := 0 to |channels|
      invariant upstreamValues == Upstreams(local, channels, i, modelName, field)
      invariant confidenceValues == Confidences(trust, channels, i, modelName)
      invariant localValue == Null ==> (hasUpstreamValue <==> IncludedUpTo(localValue, channels, i, modelName, field))
      invariant localValue != Null ==> (hasDifference <==> IncludedUpTo(localValue, channels, i, modelName, field))
    {
      var channel := channels[i];
      var upstream := ValueOf(channel.data, modelName, field);
      var upstreamValue, differs := CompareValue(localValue, upstream);
      IncludedNext(localValue, channels, i, modelName, field);
      hasUpstreamValue := hasUpstreamValue || upstream.Some?;
      hasDifference := hasDifference || differs;
      upstreamValues := upstreamValues[channel.name := upstreamValue];
      confidenceValues := confidenceValues[channel.name := trust[channel.name][modelName]];
    }
    ConfidencesAreTrusts(trust, channels, |channels|, modelName);
    var shouldInclude := if localValue != Null then hasDifference else hasUpstreamValue;
    item := if shouldInclude then Some(Item(localValue, upstreamValues, confidenceValues)) else None;
  }

  predicate NoEmptyRow(d: Differences) {
    forall model :: model in d ==> d[model] != map[]
  }

  /** The row holds what is recorded for the first `n` fields and nothing else. */
  ghost predicate RowRecords(row: Row, local: Data, channels: seq<Channel>, model: string, fields: seq<string>, n: nat)
    requires n <= |fields|
  {
    && (forall g :: 0 <= g < n ==> At(row, fields[g]) == Recorded(local, channels, model, fields[g]))
    && (forall field :: field in row ==> exists g :: 0 <= g < n && fields[g] == field)
  }

  lemma RowRecordsNext(row: Row, next: Row, local: Data, channels: seq<Channel>, model: string,
      fields: seq<string>, n: nat, item: Option<Item>)
    requires n < |fields| && RowRecords(row, local, channels, model, fields, n)
    requires item == Recorded(local, channels, model, fields[n])
    requires next == if item.Some? then row[fields[n] := item.value] else row
    ensures RowRecords(next, local, channels, model, fields, n + 1)
  {
    forall g | 0 <= g < n + 1
      ensures At(next, fields[g]) == Recorded(local, channels, model, fields[g])
    {
    }
    forall field | field in next
      ensures exists g :: 0 <= g < n + 1 && fields[g] == field
    {
      if field in row {
        var g :| 0 <= g < n && fields[g] == field;
        assert fields[g] == field;
      } else {
        assert fields[n] == field;
      }
    }
  }

  lemma RowRecordsAll(row: Row, local: Data, channels: seq<Channel>, model: string, field: string)
    requires RowRecords(row, local, channels, model, PRICING_SYNC_FIELDS, |PRICING_SYNC_FIELDS|)
    ensures At(row, field) == Recorded(local, channels, model, field)
  {
    if field in PRICING_SYNC_FIELDS {
      var g :| 0 <= g < |PRICING_SYNC_FIELDS| && PRICING_SYNC_FIELDS[g] == field;
      assert At(row, PRICING_SYNC_FIELDS[g]) == Recorded(local, channels, model, PRICING_SYNC_FIELDS[g]);
    }
  }

  /** Storing an entry, creating the row on demand. */
  method Store(before: Differences, modelName: string, field: string, item: Item) returns (differences: Differences)
    requires NoEmptyRow(before)
    ensures NoEmptyRow(differences)
    ensures RowOf(differences, modelName) == RowOf(before, modelName)[field := item]
    ensures forall model :: model != modelName ==> RowOf(differences, model) == RowOf(before, model)
  {
    differences := before;
    if modelName !in differences {
      differences := differences[modelName := map[]];
    }
    differences := differences[modelName := differences[modelName][field := item]];
    assert field in differences[modelName];
  }

  /** All the fields of one model. */
  method CompareModel(local: Data, channels: seq<Channel>, trust: map<string, map<string, bool>>, modelName: string,
                      fields: seq<string>, before: Differences)
    returns (differences: Differences)
    requires forall field :: field in fields ==> field in PRICING_SYNC_FIELDS
    requires Assessed(trust, channels, modelName) && NoEmptyRow(before) && modelName !in before
    ensures NoEmptyRow(differences)
    ensures RowRecords(RowOf(differences, modelName), local, channels, modelName, fields, |fields|)
    ensures forall model :: model != modelName ==> RowOf(differences, model) == RowOf(before, model)
  {
    differences := before;
    for f := 0 to |fields|
      invariant NoEmptyRow(differences)
      invariant RowRecords(RowOf(differences, modelName), local, channels, modelName, fields, f)
      invariant forall model :: model != modelName ==> RowOf(differences, model) == RowOf(before, model)
    {
      ghost var row := RowOf(differences, modelName);
      var item := CompareField(local, channels, trust, modelName, fields[f]);
      if item.Some? {
        differences := Store(differences, modelName, fields[f], item.value);
      }
      RowRecordsNext(row, RowOf(differences, modelName), local, channels, modelName, fields, f, item);
    }
  }

  method CompareModels(local: Data, channels: seq<Channel>, models: set<string>, trust: map<string, map<string, bool>>)
    returns (differences: Differences)
    requires forall model :: model in models ==> Assessed(trust, channels, model)
    ensures NoEmptyRow(differences) && differences.Keys <= models
    ensures forall model, field :: model in models ==>
      Entry(differences, model, field) == Recorded(local, channels, model, field)
  {
    differences := map[];
    var pending := models;
    while pending != {}
      invariant pending <= models && NoEmptyRow(differences) && differences.Keys <= models - pending
      invariant forall model :: model in models - pending ==>
        RowRecords(RowOf(differences, model), local, channels, model, PRICING_SYNC_FIELDS, |PRICING_SYNC_FIELDS|)
      decreases |pending|
    {
      var modelName :| modelName in pending;
      ghost var before := differences;
      differences := CompareModel(local, channels, trust, modelName, PRICING_SYNC_FIELDS, differences);
      forall model | model in differences && model != modelName
        ensures model in before
      {
        assert RowOf(differences, model) == RowOf(before, model) != map[];
      }
      pending := pending - {modelName};
    }
    forall model, field | model in models
      ensures Entry(differences, model, field) == Recorded(local, channels, model, field)
    {
      RowRecordsAll(RowOf(differences, model), local, channels, model, field);
    }
  }

  /** The channels that show a value in some entry. */
  method FindListed(differences: Differences) returns (listed: set<string>)
    ensures forall name :: name in listed <==> exists model, field :: Shows(Entry(differences, model, field), name)
  {
    listed := {};
    var models := differences.Keys;
    while models != {}
      invariant models <= differences.Keys
      invariant forall name :: name in listed ==> exists model, field :: Shows(Entry(differences, model, field), name)
      invariant forall model, field, name :: model !in models && Shows(Entry(differences, model, field), name) ==>
        name in listed
      decreases |models|
    {
      var modelName :| modelName in models;
      var found := FindListedIn(differences[modelName]);
      forall name | name in found
        ensures exists model, field :: Shows(Entry(differences, model, field), name)
      {
        var field :| field in differences[modelName] && Shows(Some(differences[modelName][field]), name);
        assert Shows(Entry(differences, modelName, field), name);
      }
      listed := listed + found;
      models := models - {modelName};
    }
  }

  method FindListedIn(row: Row) returns (listed: set<string>)
    ensures forall name :: name in listed <==> exists field :: field in row && Shows(Some(row[field]), name)
  {
    listed := {};
    var fields := row.Keys;
    while fields != {}
      invariant fields <= row.Keys
      invariant forall name :: name in listed <==>
        exists field :: field in row && field !in fields && Shows(Some(row[field]), name)
      decreases |fields|
    {
      var field :| field in fields;
      ghost var before, left := listed, fields - {field};
      listed := listed + set name | name in row[field].upstreams && Shows(Some(row[field]), name);
      forall name
        ensures name in listed <==> exists g :: g in row && g !in left && Shows(Some(row[g]), name)
      {
        if name in before {
          var g :| g in row && g !in fields && Shows(Some(row[g]), name);
          assert g !in left;
        }
      }
      fields := fields - {field};
    }
  }

  ghost predicate RowPruned(pruned: Row, row: Row, listed: set<string>) {
    forall field :: At(pruned, field) == Pruned(At(row, field), listed)
  }

  /** Pruning the entries of one model in place. */
  method PruneRow(row: Row, listed: set<string>) returns (pruned: Row)
    ensures RowPruned(pruned, row, listed)
  {
    pruned := row;
    var fields := row.Keys;
    while fields != {}
      invariant fields <= row.Keys && pruned.Keys <= row.Keys
      invariant forall field :: field in fields ==> field in pruned && pruned[field] == row[field]
      invariant forall field :: field in row && field !in fields ==>
        At(pruned, field) == Pruned(Some(row[field]), listed)
      decreases |fields|
    {
      var field :| field in fields;
      var item := pruned[field];
      var dropped := item.upstreams.Keys - listed;
      item := Item(item.current, item.upstreams - dropped, item.confidence - dropped);
      if |item.upstreams| == 0 || AllSame(item.upstreams) {
        pruned := pruned - {field};
      } else {
        pruned := pruned[field := item];
      }
      fields := fields - {field};
    }
  }

  /** Writing a row back, or dropping it when nothing is left of it. */
  method WriteBack(before: Differences, modelName: string, row: Row) returns (differences: Differences)
    ensures RowOf(differences, modelName) == row
    ensures modelName in differences ==> row != map[]
    ensures forall model :: model != modelName ==>
      (model in differences <==> model in before) && (model in before ==> differences[model] == before[model])
  {
    if |row| == 0 {
      differences := before - {modelName};
    } else {
      differences := before[modelName := row];
    }
  }

  method Prune(differences: Differences, listed: set<string>) returns (pruned: Differences)
    ensures NoEmptyRow(pruned)
    ensures forall model :: RowPruned(RowOf(pruned, model), RowOf(differences, model), listed)
  {
    pruned := differences;
    var models := differences.Keys;
    while models != {}
      invariant models <= differences.Keys
      invariant forall model :: model in models ==> model in pruned && pruned[model] == differences[model]
      invariant forall model :: model in pruned && model !in models ==> pruned[model] != map[]
      invariant forall model :: model !in models ==> RowPruned(RowOf(pruned, model), RowOf(differences, model), listed)
      decreases |models|
    {
      var modelName :| modelName in models;
      ghost var before := pruned;
      var ratioMap := PruneRow(pruned[modelName], listed);
      pruned := WriteBack(pruned, modelName, ratioMap);
      assert forall model :: model != modelName ==> RowOf(pruned, model) == RowOf(before, model);
      models := models - {modelName};
    }
  }

  /** What the result holds for one model and field. */
  ghost function Shown(local: Data, channels: seq<Channel>, model: string, field: string): Option<Item> {
    var recorded := Recorded(local, channels, model, field);
    if recorded.None? then None
    else Pruned(recorded, set name | name in recorded.value.upstreams && Listed(local, channels, name))
  }

  /** buildDifferences. */
  method BuildDifferences(local: Data, channels: seq<Channel>) returns (differences: Differences)
    ensures NoEmptyRow(differences)
    ensures forall model, field :: Entry(differences, model, field) == Shown(local, channels, model, field)
  {
    var models := CollectModels(local, channels);
    var trust := AssessChannels(channels, models);
    var recorded := CompareModels(local, channels, models, trust);
    forall model, field
      ensures Entry(recorded, model, field) == Recorded(local, channels, model, field)
    {
      if model !in models {
        assert model !in recorded;
      }
    }
    var listed := FindListed(recorded);
    forall name
      ensures name in listed <==> Listed(local, channels, name)
    {
      if name in listed {
        ghost var model, field :| Shows(Entry(recorded, model, field), name);
        assert Shows(Recorded(local, channels, model, field), name);
      }
      if Listed(local, channels, name) {
        ghost var model, field :| Shows(Recorded(local, channels, model, field), name);
        assert Shows(Entry(recorded, model, field), name);
      }
    }
    differences := Prune(recorded, listed);
    forall model, field
      ensures Entry(differences, model, field) == Shown(local, channels, model, field)
    {
      assert RowPruned(RowOf(differences, model), RowOf(recorded, model), listed);
      assert Entry(recorded, model, field) == Recorded(local, channels, model, field);
      PrunedAlike(Recorded(local, channels, model, field), listed, local, channels);
    }
  }

  lemma PrunedAlike(item: Option<Item>, listed: set<string>, local: Data, channels: seq<Channel>)
    requires forall name :: name in listed <==> Listed(local, channels, name)
    ensures item.Some? ==>
      Pruned(item, listed) == Pruned(item, set name | name in item.value.upstreams && Listed(local, channels, name))
  {
    if item.Some? {
      assert item.value.upstreams.Keys - listed
          == item.value.upstreams.Keys - (set name | name in item.value.upstreams && Listed(local, channels, name));
    }
  }

  // ---------- what the result means ----------

  predicate DistinctNames(channels: seq<Channel>) {
    forall i, j :: 0 <= i < j < |channels| ==> channels[i].name != channels[j].name
  }

  /** No upstream table holds the very text that the comparison uses as its marker. */
  ghost predicate NoSameText(channels: seq<Channel>) {
    forall i, model, field :: 0 <= i < |channels| ==> ValueOf(channels[i].data, model, field) != Some(SAME)
  }

  /** The channel has a value, and it is not the local one. */
  predicate Differs(local: Data, channel: Channel, model: string, field: string) {
    var value := ValueOf(channel.data, model, field);
    value.Some? && value.value != Null && !ValuesEqual(Current(local, model, field), value.value)
  }

  predicate HasValue(channel: Channel, model: string, field: string) {
    ValueOf(channel.data, model, field) != None && ValueOf(channel.data, model, field) != Some(Null)
  }

  predicate GivesNull(channel: Channel, model: string, field: string) {
    ValueOf(channel.data, model, field) == Some(Null)
  }

  /** A difference that the marker text does not hide. */
  predicate Marked(local: Data, channel: Channel, model: string, field: string) {
    Differs(local, channel, model, field) && ValueOf(channel.data, model, field) != Some(SAME)
  }

  ghost predicate MarkedSomewhere(local: Data, channel: Channel) {
    exists model, field :: field in PRICING_SYNC_FIELDS && Marked(local, channel, model, field)
  }

  /** Only the local table has a value. */
  predicate Lacks(local: Data, channel: Channel, model: string, field: string) {
    Current(local, model, field) != Null && !HasValue(channel, model, field)
  }

  /** The last channel of its name, whose data count. */
  predicate IsLast(channels: seq<Channel>, n: nat, i: nat)
    requires n <= |channels|
  {
    i < n && forall j :: i < j < n ==> channels[j].name != channels[i].name
  }

  predicate Counts(channels: seq<Channel>, i: nat) {
    IsLast(channels, |channels|, i)
  }

  lemma {:induction false} LastOfName(channels: seq<Channel>, n: nat, name: string) returns (i: nat)
    requires n <= |channels| && IsName(channels, n, name)
    ensures IsLast(channels, n, i) && channels[i].name == name
  {
    if channels[n - 1].name == name {
      i := n - 1;
    } else {
      i := LastOfName(channels, n - 1, name);
    }
  }

  predicate IsName(channels: seq<Channel>, n: nat, name: string)
    requires n <= |channels|
  {
    exists i :: 0 <= i < n && channels[i].name == name
  }

  lemma {:induction false} ColumnNames(local: Data, channels: seq<Channel>, n: nat, model: string,
      field: string, name: string)
    requires n <= |channels|
    ensures name in Upstreams(local, channels, n, model, field) <==> IsName(channels, n, name)
    ensures name in Trusts(channels, n, model) <==> IsName(channels, n, name)
  {
    if n > 0 {
      ColumnNames(local, channels, n - 1, model, field, name);
      assert IsName(channels, n, name) <==> IsName(channels, n - 1, name) || channels[n - 1].name == name;
    }
  }

  lemma {:induction false} ColumnAt(local: Data, channels: seq<Channel>, n: nat, model: string, field: string, i: nat)
    requires n <= |channels| && IsLast(channels, n, i)
    ensures channels[i].name in Upstreams(local, channels, n, model, field)
    ensures Upstreams(local, channels, n, model, field)[channels[i].name]
         == Cell(Current(local, model, field), ValueOf(channels[i].data, model, field))
  {
    if i < n - 1 {
      ColumnAt(local, channels, n - 1, model, field, i);
      assert channels[i].name != channels[n - 1].name;
    }
  }

  lemma {:induction false} TrustAt(channels: seq<Channel>, n: nat, model: string, i: nat)
    requires n <= |channels| && IsLast(channels, n, i)
    ensures channels[i].name in Trusts(channels, n, model)
    ensures Trusts(channels, n, model)[channels[i].name] == Trusted(channels[i], model)
  {
    if i < n - 1 {
      TrustAt(channels, n - 1, model, i);
      assert channels[i].name != channels[n - 1].name;
    }
  }

  /** A channel shows a value exactly at its unhidden differences. */
  lemma ShowsIffMarked(local: Data, channels: seq<Channel>, i: nat, model: string, field: string)
    requires Counts(channels, i)
    ensures Shows(Recorded(local, channels, model, field), channels[i].name) <==>
      field in PRICING_SYNC_FIELDS && Marked(local, channels[i], model, field)
  {
    ColumnAt(local, channels, |channels|, model, field, i);
    if Marked(local, channels[i], model, field) {
      assert DeviatesAt(Current(local, model, field), channels[i], model, field);
      assert Included(local, channels, model, field);
    }
  }

  /** The listed channels are those with an unhidden difference anywhere. */
  lemma ListedIff(local: Data, channels: seq<Channel>, i: nat)
    requires Counts(channels, i)
    ensures Listed(local, channels, channels[i].name) <==> MarkedSomewhere(local, channels[i])
  {
    forall model, field
      ensures Shows(Recorded(local, channels, model, field), channels[i].name) <==>
        field in PRICING_SYNC_FIELDS && Marked(local, channels[i], model, field)
    {
      ShowsIffMarked(local, channels, i, model, field);
    }
    if MarkedSomewhere(local, channels[i]) {
      var model, field :| field in PRICING_SYNC_FIELDS && Marked(local, channels[i], model, field);
      assert Shows(Recorded(local, channels, model, field), channels[i].name);
    }
  }

  /** The cell of a listed channel: its value where it differs, null where only the local
      table has a value, and "same" otherwise. */
  function Meaning(local: Data, channel: Channel, model: string, field: string): Value {
    if Differs(local, channel, model, field) then ValueOf(channel.data, model, field).value
    else if Lacks(local, channel, model, field) then Null
    else SAME
  }

  lemma CellIsMeaning(local: Data, channel: Channel, model: string, field: string)
    ensures Cell(Current(local, model, field), ValueOf(channel.data, model, field))
         == Meaning(local, channel, model, field)
    ensures Meaning(local, channel, model, field) != SAME <==>
      Marked(local, channel, model, field) || Lacks(local, channel, model, field)
  {
  }

  /** The upstream column that survives the pruning. */
  ghost function Kept(local: Data, channels: seq<Channel>, model: string, field: string): map<string, Value> {
    map name | name in Upstreams(local, channels, |channels|, model, field) && Listed(local, channels, name)
      :: Upstreams(local, channels, |channels|, model, field)[name]
  }

  lemma ShownIsKept(local: Data, channels: seq<Channel>, model: string, field: string)
    ensures Shown(local, channels, model, field).Some? <==>
      Recorded(local, channels, model, field).Some? && !AllSame(Kept(local, channels, model, field))
    ensures Shown(local, channels, model, field).Some? ==>
      && Shown(local, channels, model, field).value.upstreams == Kept(local, channels, model, field)
      && Shown(local, channels, model, field).value.current == Current(local, model, field)
  {
    var recorded := Recorded(local, channels, model, field);
    if recorded.Some? {
      var names := set name | name in recorded.value.upstreams && Listed(local, channels, name);
      assert recorded.value.upstreams - (recorded.value.upstreams.Keys - names) == Kept(local, channels, model, field);
    }
  }

  lemma KeptAt(local: Data, channels: seq<Channel>, model: string, field: string, i: nat)
    requires Counts(channels, i)
    ensures channels[i].name in Kept(local, channels, model, field) <==> MarkedSomewhere(local, channels[i])
    ensures channels[i].name in Kept(local, channels, model, field) ==>
      Kept(local, channels, model, field)[channels[i].name] == Meaning(local, channels[i], model, field)
  {
    ColumnAt(local, channels, |channels|, model, field, i);
    ListedIff(local, channels, i);
    CellIsMeaning(local, channels[i], model, field);
  }

  /** What an entry of the result looks like, channel by channel. */
  lemma ShownEntry(local: Data, channels: seq<Channel>, model: string, field: string, i: nat)
    requires Counts(channels, i) && Shown(local, channels, model, field).Some?
    ensures var item, name := Shown(local, channels, model, field).value, channels[i].name;
      && item.current == Current(local, model, field)
      && (name in item.upstreams <==> MarkedSomewhere(local, channels[i]))
      && (name in item.upstreams ==>
            && item.upstreams[name] == Meaning(local, channels[i], model, field)
            && name in item.confidence && item.confidence[name] == Trusted(channels[i], model))
  {
    ShownIsKept(local, channels, model, field);
    KeptAt(local, channels, model, field, i);
    TrustAt(channels, |channels|, model, i);
  }

  /** No entry is empty, confidence has the keys of upstreams, and all are channel names. */
  lemma ShownKeys(local: Data, channels: seq<Channel>, model: string, field: string, name: string)
    requires Shown(local, channels, model, field).Some?
    ensures var item := Shown(local, channels, model, field).value;
      && item.upstreams != map[]
      && (name in item.confidence <==> name in item.upstreams)
      && (name in item.upstreams ==> IsName(channels, |channels|, name))
  {
    ShownIsKept(local, channels, model, field);
    ColumnNames(local, channels, |channels|, model, field, name);
    assert AllSame(map[]);
  }

  /** Some channel gives a value that is not the local one, or an explicit null. */
  predicate Answered(local: Data, channels: seq<Channel>, model: string, field: string) {
    exists i :: 0 <= i < |channels| &&
      (Differs(local, channels[i], model, field) || GivesNull(channels[i], model, field))
  }

  lemma IncludedIffAnswered(local: Data, channels: seq<Channel>, model: string, field: string)
    ensures Included(local, channels, model, field) <==> Answered(local, channels, model, field)
  {
    var current := Current(local, model, field);
    forall i | 0 <= i < |channels|
      ensures DeviatesAt(current, channels[i], model, field) <==>
        Differs(local, channels[i], model, field) || GivesNull(channels[i], model, field)
    {
    }
  }

  /** A listed channel's cell that is not "same". */
  ghost predicate Visible(local: Data, channels: seq<Channel>, i: nat, model: string, field: string)
    requires i < |channels|
  {
    && Counts(channels, i) && MarkedSomewhere(local, channels[i])
    && (Marked(local, channels[i], model, field) || Lacks(local, channels[i], model, field))
  }

  /** The exact condition for an entry, whatever the tables hold: some channel gives a
      different value or an explicit null, and some listed channel either has an unhidden
      difference here or lacks a value that the local table has. */
  lemma AppearsIff(local: Data, channels: seq<Channel>, model: string, field: string)
    ensures Shown(local, channels, model, field).Some? <==>
      && field in PRICING_SYNC_FIELDS
      && Answered(local, channels, model, field)
      && exists i :: 0 <= i < |channels| && Visible(local, channels, i, model, field)
  {
    ShownIsKept(local, channels, model, field);
    IncludedIffAnswered(local, channels, model, field);
    var kept := Kept(local, channels, model, field);
    if !AllSame(kept) {
      var name :| name in kept && kept[name] != SAME;
      ColumnNames(local, channels, |channels|, model, field, name);
      var i := LastOfName(channels, |channels|, name);
      KeptAt(local, channels, model, field, i);
      CellIsMeaning(local, channels[i], model, field);
      assert Visible(local, channels, i, model, field);
    } else {
      forall i | 0 <= i < |channels|
        ensures !Visible(local, channels, i, model, field)
      {
        if Counts(channels, i) {
          KeptAt(local, channels, model, field, i);
          CellIsMeaning(local, channels[i], model, field);
        }
      }
    }
  }

  predicate SomeDiffers(local: Data, channels: seq<Channel>, model: string, field: string) {
    exists i :: 0 <= i < |channels| && Differs(local, channels[i], model, field)
  }

  /** The channel has nothing to show here: a difference is hidden by the marker text, and
      where it lacks the local value it is not listed. */
  ghost predicate ShowsNothing(local: Data, channel: Channel, model: string, field: string) {
    && (Differs(local, channel, model, field) ==> ValueOf(channel.data, model, field) == Some(SAME))
    && (Lacks(local, channel, model, field) ==> !MarkedSomewhere(local, channel))
  }

  lemma VisibleIff(local: Data, channels: seq<Channel>, i: nat, model: string, field: string)
    requires field in PRICING_SYNC_FIELDS && i < |channels|
    ensures Visible(local, channels, i, model, field) <==>
      Counts(channels, i) && !ShowsNothing(local, channels[i], model, field)
  {
    assert Marked(local, channels[i], model, field) ==> MarkedSomewhere(local, channels[i]);
  }

  /** When a real difference has no entry: exactly when no channel has anything to show. */
  lemma HiddenIff(local: Data, channels: seq<Channel>, model: string, field: string)
    requires field in PRICING_SYNC_FIELDS && SomeDiffers(local, channels, model, field)
    ensures Shown(local, channels, model, field).None? <==>
      forall i :: 0 <= i < |channels| && Counts(channels, i) ==> ShowsNothing(local, channels[i], model, field)
  {
    AppearsIff(local, channels, model, field);
    var d :| 0 <= d < |channels| && Differs(local, channels[d], model, field);
    assert Answered(local, channels, model, field);
    forall i | 0 <= i < |channels|
      ensures Visible(local, channels, i, model, field) <==>
        Counts(channels, i) && !ShowsNothing(local, channels[i], model, field)
    {
      VisibleIff(local, channels, i, model, field);
    }
  }

  /** Listed, and without the value that the local table has. */
  ghost predicate Misses(local: Data, channels: seq<Channel>, i: nat, model: string, field: string)
    requires i < |channels|
  {
    Counts(channels, i) && MarkedSomewhere(local, channels[i]) && Lacks(local, channels[i], model, field)
  }

  /** When there is an entry without any difference: exactly when a channel answers a local
      value with an explicit null while a listed channel lacks it. */
  lemma SpuriousIff(local: Data, channels: seq<Channel>, model: string, field: string)
    requires field in PRICING_SYNC_FIELDS && !SomeDiffers(local, channels, model, field)
    ensures Shown(local, channels, model, field).Some? <==>
      && (exists i :: 0 <= i < |channels| && GivesNull(channels[i], model, field))
      && (exists i :: 0 <= i < |channels| && Misses(local, channels, i, model, field))
  {
    AppearsIff(local, channels, model, field);
    forall i | 0 <= i < |channels|
      ensures Visible(local, channels, i, model, field) <==> Misses(local, channels, i, model, field)
    {
      assert !Differs(local, channels[i], model, field);
    }
  }

  /** With distinct names, and where no channel gives a null or the marker text, an entry
      appears exactly for a real difference. */
  lemma AppearsIffDiffers(local: Data, channels: seq<Channel>, model: string, field: string)
    requires DistinctNames(channels)
    requires forall i :: 0 <= i < |channels| ==>
      !GivesNull(channels[i], model, field) && ValueOf(channels[i].data, model, field) != Some(SAME)
    ensures Shown(local, channels, model, field).Some? <==>
      field in PRICING_SYNC_FIELDS && SomeDiffers(local, channels, model, field)
  {
    if field in PRICING_SYNC_FIELDS {
      if SomeDiffers(local, channels, model, field) {
        HiddenIff(local, channels, model, field);
        var d :| 0 <= d < |channels| && Differs(local, channels[d], model, field);
        assert Counts(channels, d);
      } else {
        SpuriousIff(local, channels, model, field);
      }
    }
  }

  /** The condition for a single channel. */
  lemma OneChannel(local: Data, channel: Channel, model: string, field: string)
    ensures Shown(local, [channel], model, field).Some? <==>
      && field in PRICING_SYNC_FIELDS
      && (Differs(local, channel, model, field) || GivesNull(channel, model, field))
      && MarkedSomewhere(local, channel)
      && (Marked(local, channel, model, field) || Lacks(local, channel, model, field))
  {
    var channels := [channel];
    AppearsIff(local, channels, model, field);
    assert channels[0] == channel && Counts(channels, 0);
    if Visible(local, channels, 0, model, field) {
      assert exists i :: 0 <= i < |channels| && Visible(local, channels, i, model, field);
    }
  }

  /** An explicit null next to an unrelated difference makes an entry although no channel
      gives a value for it. */
  lemma NullMakesAnEntry(local: Data, channel: Channel, field: string, m: string, n: string)
    requires field in PRICING_SYNC_FIELDS
    requires Current(local, m, field) != Null && GivesNull(channel, m, field)
    requires Marked(local, channel, n, field)
    ensures !SomeDiffers(local, [channel], m, field) && Shown(local, [channel], m, field).Some?
  {
    OneChannel(local, channel, m, field);
  }

  /** Such inputs: numbers only, no marker text anywhere. */
  lemma NullExample(field: string, m: string, n: string, x: real, y: real)
    requires field in PRICING_SYNC_FIELDS && m != n
    ensures var local: Data := map[field := map[m := Number(x)]];
      var channel := Channel("a", map[field := map[m := Null, n := Number(y)]]);
      && NoSameText([channel])
      && !SomeDiffers(local, [channel], m, field) && Shown(local, [channel], m, field).Some?
  {
    var local: Data := map[field := map[m := Number(x)]];
    var channel := Channel("a", map[field := map[m := Null, n := Number(y)]]);
    NullMakesAnEntry(local, channel, field, m, n);
  }

  /** A channel whose only difference is an upstream text that happens to be the marker. */
  lemma SameTextHides()
    ensures var local: Data := map["billing_mode" := map["m" := Text("tiered")]];
      var channels := [Channel("a", map["billing_mode" := map["m" := SAME]])];
      && Differs(local, channels[0], "m", "billing_mode")
      && Shown(local, channels, "m", "billing_mode").None?
  {
    var local: Data := map["billing_mode" := map["m" := Text("tiered")]];
    var channel := Channel("a", map["billing_mode" := map["m" := SAME]]);
    assert "tiered" != "same";
    OneChannel(local, channel, "m", "billing_mode");
  }

  // ---------- the result in terms of the tables ----------

  /** The table has this value for the model and field. */
  ghost predicate Has(data: Data, model: string, field: string, v: Value) {
    field in data && model in data[field] && data[field][model] == v
  }

  /** Only the ten pricing fields are compared. */
  lemma OnlyPricingFields(local: Data, channels: seq<Channel>, d: Differences, model: string, field: string)
    requires forall m, f :: Entry(d, m, f) == Shown(local, channels, m, f)
    requires model in d && field in d[model]
    ensures field in ["model_ratio", "completion_ratio", "cache_ratio", "create_cache_ratio", "image_ratio",
                      "audio_ratio", "audio_completion_ratio", "model_price", "billing_mode", "billing_expr"]
  {
    assert Entry(d, model, field) == Some(d[model][field]);
    assert Shown(local, channels, model, field).Some?;
  }

  /** A channel whose number is a billionth or more from the local one is shown with it. */
  lemma FarNumbersShown(local: Data, channels: seq<Channel>, d: Differences, model: string, field: string,
                        i: nat, x: real, y: real)
    requires forall m, f :: Entry(d, m, f) == Shown(local, channels, m, f)
    requires field in ["model_ratio", "completion_ratio", "cache_ratio", "create_cache_ratio", "image_ratio",
                       "audio_ratio", "audio_completion_ratio", "model_price", "billing_mode", "billing_expr"]
    requires DistinctNames(channels) && i < |channels|
    requires Has(local, model, field, Number(x)) && Has(channels[i].data, model, field, Number(y))
    requires x - y >= 0.000000001 || y - x >= 0.000000001
    ensures model in d && field in d[model]
    ensures var item := d[model][field];
      && item.current == Number(x)
      && channels[i].name in item.upstreams && item.upstreams[channels[i].name] == Number(y)
  {
    assert ValueOf(channels[i].data, model, field) == Some(Number(y)) && Current(local, model, field) == Number(x);
    assert Marked(local, channels[i], model, field);
    assert Counts(channels, i) && Visible(local, channels, i, model, field);
    AppearsIff(local, channels, model, field);
    ShownEntry(local, channels, model, field, i);
    assert Entry(d, model, field) == Shown(local, channels, model, field);
  }

  /** One whose number is closer is never shown with it: its cell, if any, says "same". */
  lemma NearNumbersAreSame(local: Data, channels: seq<Channel>, d: Differences, model: string, field: string,
                           i: nat, x: real, y: real)
    requires forall m, f :: Entry(d, m, f) == Shown(local, channels, m, f)
    requires DistinctNames(channels) && i < |channels|
    requires Has(local, model, field, Number(x)) && Has(channels[i].data, model, field, Number(y))
    requires -0.000000001 < x - y < 0.000000001
    ensures model in d && field in d[model] && channels[i].name in d[model][field].upstreams ==>
      d[model][field].upstreams[channels[i].name] == Text("same")
  {
    if model in d && field in d[model] {
      NearIsSame(local, channels[i], model, field, x, y);
      assert Counts(channels, i);
      assert Entry(d, model, field) == Some(d[model][field]) == Shown(local, channels, model, field);
      ShownEntry(local, channels, model, field, i);
    }
  }

  lemma NearIsSame(local: Data, channel: Channel, model: string, field: string, x: real, y: real)
    requires Has(local, model, field, Number(x)) && Has(channel.data, model, field, Number(y))
    requires -0.000000001 < x - y < 0.000000001
    ensures Meaning(local, channel, model, field) == SAME
  {
    assert ValueOf(channel.data, model, field) == Some(Number(y)) && Current(local, model, field) == Number(x);
  }

  /** A value that the local tables lack is shown as new, whatever its kind. */
  lemma NewValuesShown(local: Data, channels: seq<Channel>, d: Differences, model: string, field: string,
                       i: nat, y: Value)
    requires forall m, f :: Entry(d, m, f) == Shown(local, channels, m, f)
    requires field in ["model_ratio", "completion_ratio", "cache_ratio", "create_cache_ratio", "image_ratio",
                       "audio_ratio", "audio_completion_ratio", "model_price", "billing_mode", "billing_expr"]
    requires DistinctNames(channels) && i < |channels|
    requires field !in local || model !in local[field]
    requires Has(channels[i].data, model, field, y) && y != Null && y != Text("same")
    ensures model in d && field in d[model]
    ensures var item := d[model][field];
      && item.current == Null
      && channels[i].name in item.upstreams && item.upstreams[channels[i].name] == y
  {
    assert ValueOf(channels[i].data, model, field) == Some(y) && Current(local, model, field) == Null;
    assert Marked(local, channels[i], model, field);
    assert Counts(channels, i) && Visible(local, channels, i, model, field);
    AppearsIff(local, channels, model, field);
    ShownEntry(local, channels, model, field, i);
    assert Entry(d, model, field) == Shown(local, channels, model, field);
  }

  /** A shown channel is distrusted exactly when its own ratios for the model are within a
      billionth of the placeholders 37.5 and 1. */
  lemma DistrustIff(local: Data, channels: seq<Channel>, d: Differences, model: string, field: string, i: nat)
    requires forall m, f :: Entry(d, m, f) == Shown(local, channels, m, f)
    requires DistinctNames(channels) && i < |channels|
    requires model in d && field in d[model] && channels[i].name in d[model][field].upstreams
    ensures channels[i].name in d[model][field].confidence
    ensures !d[model][field].confidence[channels[i].name] <==>
      exists ratio, completion ::
        && Has(channels[i].data, model, "model_ratio", Number(ratio))
        && Has(channels[i].data, model, "completion_ratio", Number(completion))
        && -0.000000001 < ratio - 37.5 < 0.000000001 && -0.000000001 < completion - 1.0 < 0.000000001
  {
    assert Counts(channels, i);
    assert Entry(d, model, field) == Some(d[model][field]) == Shown(local, channels, model, field);
    ShownEntry(local, channels, model, field, i);
    TrustedIff(channels[i], model);
  }

  lemma TrustedIff(channel: Channel, model: string)
    ensures !Trusted(channel, model) <==>
      exists ratio, completion ::
        && Has(channel.data, model, "model_ratio", Number(ratio))
        && Has(channel.data, model, "completion_ratio", Number(completion))
        && -0.000000001 < ratio - 37.5 < 0.000000001 && -0.000000001 < completion - 1.0 < 0.000000001
  {
    if !Trusted(channel, model) {
      var ratio := ValueOf(channel.data, model, "model_ratio").value.r;
      var completion := ValueOf(channel.data, model, "completion_ratio").value.r;
      assert Has(channel.data, model, "model_ratio", Number(ratio));
      assert Has(channel.data, model, "completion_ratio", Number(completion));
    }
  }
}
