/**
 * The metrics export pipeline of `src/utils/exportMetrics.tsx`.
 *
 * `exportMetrics` walks the persisted plugin states, keyed by
 * `"<clientID>#<pluginName>"`, hands each selected state to its plugin's
 * `metricsReducer` and gathers the results into a nested
 * clientID -> pluginName -> metrics dictionary. `exportMetricsFromTrace`
 * first digs the plugin states out of an imported trace document.
 *
 * The serialized string the source returns is modelled by the dictionary
 * before serialization.
 */
module ExportMetrics {
  import opened Wrappers
  import opened Strings

  /** `MetricType`: metric name to number. Numbers are only passed through, so `int` stands for them. */
  type MetricType = map<string, int>
  /** `MetricPluginType`: plugin name to that plugin's metrics. */
  type MetricPluginType = map<string, MetricType>
  /** `ExportMetricType`: client id to its plugins' metrics. */
  type ExportMetricType = map<string, MetricPluginType>

  /** A plugin's `metricsReducer`: persisted state to metrics, or the reason it rejects. */
  type Reducer<!S> = S -> Result<MetricType, string>

  /** A plugin class as the exporter sees it: it may or may not define `metricsReducer`. */
  datatype Plugin<!S> = Plugin(metricsReducer: Option<Reducer<S>>)

  const Delimiter: char := '#'

  // ---------------------------------------------------------------------------
  // Key decomposition
  // ---------------------------------------------------------------------------

  /**
   * `(clientID, pluginName)` of a composite key, computed as the source does:
   * split at every '#', pop the last piece as the plugin name, join the rest
   * back with '#' as the client id.
   */
  function Decompose(key: string): (string, string)
  {
    var arr := Split(key, Delimiter);
    (Join(arr[..|arr| - 1], Delimiter), arr[|arr| - 1])
  }

  /**
   * The plugin name is the '#'-free text after the last '#', the client id
   * everything before it; a key without '#' is not rejected but becomes
   * client "" with the whole key as plugin name.
   */
  lemma DecomposeLast(key: string)
    ensures Delimiter !in Decompose(key).1
    ensures Delimiter in key ==> Decompose(key).0 + [Delimiter] + Decompose(key).1 == key
    ensures Delimiter !in key ==> Decompose(key) == ("", key)
  {
    var arr := Split(key, Delimiter);
    JoinSplit(key, Delimiter);
    if Delimiter !in key {
      SplitWithout(key, Delimiter);
    } else {
      JoinLast(arr, Delimiter);
    }
  }

  /** The decomposition is the only split at a '#' that leaves no '#' in the plugin name: the last one. */
  lemma DecomposeUnique(key: string, clientID: string, pluginName: string)
    requires clientID + [Delimiter] + pluginName == key
    requires Delimiter !in pluginName
    ensures Decompose(key) == (clientID, pluginName)
  {
    assert key[|clientID|] == Delimiter;
    DecomposeLast(key);
    var (c, p) := Decompose(key);
    assert c + [Delimiter] + p == key;
    assert key[|c|] == Delimiter;
    assert forall k :: 0 <= k < |pluginName| ==> key[|clientID| + 1 + k] == pluginName[k];
    if |p| < |pluginName| {
      assert false;
    } else if |p| > |pluginName| {
      assert false;
    }
    assert p == key[|key| - |p|..] == pluginName;
    assert c == key[..|c|] == clientID;
  }

  /** The last-delimiter rule keeps a '#' inside the client id. */
  lemma DecomposeNestedClient()
    ensures Decompose("a#b#pluginX") == ("a#b", "pluginX")
  {
    DecomposeUnique("a#b#pluginX", "a#b", "pluginX");
  }

  /** The distinct keys "p" and "#p" land in the same (client, plugin) slot. */
  lemma DecomposeCollision()
    ensures Decompose("p") == Decompose("#p") == ("", "p")
  {
    DecomposeLast("p");
    DecomposeUnique("#p", "", "p");
  }

  // ---------------------------------------------------------------------------
  // Filtering and reducer lookup
  // ---------------------------------------------------------------------------

  /** The selection filter: an empty list selects every plugin. */
  predicate Selected(selectedPlugins: seq<string>, pluginName: string)
  {
    |selectedPlugins| == 0 || pluginName in selectedPlugins
  }

  /** `pluginsMap.has(name) && plugin.metricsReducer`. */
  function ReducerOf<S>(pluginsMap: map<string, Plugin<S>>, pluginName: string): Option<Reducer<S>>
  {
    if pluginName in pluginsMap then pluginsMap[pluginName].metricsReducer else None
  }

  /** The reducer a persisted-state key is handed to, or None when the entry is skipped. */
  function ReducerFor<S>(key: string, pluginsMap: map<string, Plugin<S>>, selectedPlugins: seq<string>)
    : Option<Reducer<S>>
  {
    var pluginName := Decompose(key).1;
    if Selected(selectedPlugins, pluginName) then ReducerOf(pluginsMap, pluginName) else None
  }

  /** An entry whose reducer runs and rejects. */
  predicate Rejects<S>(entry: (string, S), pluginsMap: map<string, Plugin<S>>, selectedPlugins: seq<string>)
  {
    var reducer := ReducerFor(entry.0, pluginsMap, selectedPlugins);
    reducer.Some? && reducer.value(entry.1).Failure?
  }

  // ---------------------------------------------------------------------------
  // Merging and the aggregate
  // ---------------------------------------------------------------------------

  /**
   * Store one plugin's metrics for a client: a new client gets a fresh
   * one-plugin dictionary, an existing one is spread-merged with it.
   */
  function Merge(metrics: ExportMetricType, clientID: string, pluginName: string, metricsObject: MetricType)
    : (r: ExportMetricType)
    ensures r.Keys == metrics.Keys + {clientID}
    ensures r[clientID].Keys == (if clientID in metrics then metrics[clientID].Keys else {}) + {pluginName}
    ensures r[clientID][pluginName] == metricsObject
    ensures forall q :: q in r[clientID] && q != pluginName ==> r[clientID][q] == metrics[clientID][q]
    ensures forall c :: c in metrics && c != clientID ==> r[c] == metrics[c]
  {
    var pluginObject := map[pluginName := metricsObject];
    if clientID !in metrics then metrics[clientID := pluginObject]
    else metrics[clientID := metrics[clientID] + pluginObject]
  }

  /** One iteration of the export loop; a rejection ends the walk. */
  function Step<S>(acc: Result<ExportMetricType, string>, entry: (string, S),
                   pluginsMap: map<string, Plugin<S>>, selectedPlugins: seq<string>)
    : Result<ExportMetricType, string>
  {
    if acc.Failure? then acc
    else match ReducerFor(entry.0, pluginsMap, selectedPlugins)
      case None => acc
      case Some(reducer) =>
        match reducer(entry.1)
        case Failure(e) => Failure(e)
        case Success(metricsObject) =>
          var (clientID, pluginName) := Decompose(entry.0);
          Success(Merge(acc.value, clientID, pluginName, metricsObject))
  }

  /** What `exportMetrics` produces for the plugin states in enumeration order. */
  function Aggregate<S>(pluginStates: seq<(string, S)>, pluginsMap: map<string, Plugin<S>>,
                        selectedPlugins: seq<string>): Result<ExportMetricType, string>
    decreases |pluginStates|
  {
    if pluginStates == [] then Success(map[])
    else
      var n := |pluginStates| - 1;
      Step(Aggregate(pluginStates[..n], pluginsMap, selectedPlugins), pluginStates[n], pluginsMap, selectedPlugins)
  }

  /** `exportMetrics`: the loop over the plugin states, mutating the `metrics` dictionary. */
  method ExportMetrics<S>(pluginStates: seq<(string, S)>, pluginsMap: map<string, Plugin<S>>,
                          selectedPlugins: seq<string>)
    returns (r: Result<ExportMetricType, string>)
    ensures r == Aggregate(pluginStates, pluginsMap, selectedPlugins)
  {
    var metrics: ExportMetricType := map[];
    for i := 0 to |pluginStates|
      invariant Aggregate(pluginStates[..i], pluginsMap, selectedPlugins) == Success(metrics)
    {
      assert pluginStates[..i + 1][..i] == pluginStates[..i];
      var (key, pluginStateData) := pluginStates[i];
      var arr := Split(key, Delimiter);
      var pluginName := arr[|arr| - 1];
      arr := arr[..|arr| - 1];
      if |selectedPlugins| > 0 && pluginName !in selectedPlugins {
        continue;
      }
      var clientID := Join(arr, Delimiter);
      var metricsReducer := if pluginName in pluginsMap then pluginsMap[pluginName].metricsReducer else None;
      if metricsReducer.Some? {
        var outcome := metricsReducer.value(pluginStateData);
        if outcome.Failure? {
          AggregateFailurePersists(pluginStates, i + 1, pluginsMap, selectedPlugins);
          return Failure(outcome.error);
        }
        var pluginObject := map[pluginName := outcome.value];
        if clientID !in metrics {
          metrics := metrics[clientID := pluginObject];
          continue;
        }
        var mergedMetrics := metrics[clientID] + pluginObject;
        metrics := metrics[clientID := mergedMetrics];
      }
    }
    assert pluginStates[..|pluginStates|] == pluginStates;
    r := Success(metrics);
  }

  /** Once a reducer has rejected, later entries change nothing: the rejection is the result. */
  lemma {:induction false} AggregateFailurePersists<S>(pluginStates: seq<(string, S)>, n: nat,
                                                      pluginsMap: map<string, Plugin<S>>, selectedPlugins: seq<string>)
    requires n <= |pluginStates|
    requires Aggregate(pluginStates[..n], pluginsMap, selectedPlugins).Failure?
    ensures Aggregate(pluginStates, pluginsMap, selectedPlugins) == Aggregate(pluginStates[..n], pluginsMap, selectedPlugins)
    decreases |pluginStates|
  {
    if n < |pluginStates| {
      var m := |pluginStates| - 1;
      assert pluginStates[..m][..n] == pluginStates[..n];
      AggregateFailurePersists(pluginStates[..m], n, pluginsMap, selectedPlugins);
    } else {
      assert pluginStates[..n] == pluginStates;
    }
  }

  /** An entry whose plugin is selected and has a reducer, so that the reducer runs on it. */
  predicate Reaches<S>(entry: (string, S), pluginsMap: map<string, Plugin<S>>, selectedPlugins: seq<string>)
  {
    ReducerFor(entry.0, pluginsMap, selectedPlugins).Some?
  }

  /** The export rejects exactly when some reducer that runs rejects: nothing catches it. */
  lemma {:induction false} AggregateRejectsIff<S>(pluginStates: seq<(string, S)>,
                                                 pluginsMap: map<string, Plugin<S>>, selectedPlugins: seq<string>)
    ensures Aggregate(pluginStates, pluginsMap, selectedPlugins).Failure? <==>
            exists i :: 0 <= i < |pluginStates| && Rejects(pluginStates[i], pluginsMap, selectedPlugins)
    decreases |pluginStates|
  {
    if pluginStates != [] {
      var n := |pluginStates| - 1;
      var prefix := pluginStates[..n];
      AggregateRejectsIff(prefix, pluginsMap, selectedPlugins);
      assert forall i :: 0 <= i < n ==> prefix[i] == pluginStates[i];
      if Aggregate(prefix, pluginsMap, selectedPlugins).Failure? {
        var i :| 0 <= i < n && Rejects(prefix[i], pluginsMap, selectedPlugins);
        assert Rejects(pluginStates[i], pluginsMap, selectedPlugins);
      }
    }
  }

  /** The error the export rejects with is that of the first reducer that rejects. */
  lemma AggregateFirstRejection<S>(pluginStates: seq<(string, S)>, pluginsMap: map<string, Plugin<S>>,
                                   selectedPlugins: seq<string>, i: nat)
    requires i < |pluginStates| && Rejects(pluginStates[i], pluginsMap, selectedPlugins)
    requires forall j :: 0 <= j < i ==> !Rejects(pluginStates[j], pluginsMap, selectedPlugins)
    ensures Aggregate(pluginStates, pluginsMap, selectedPlugins) ==
            Failure(ReducerFor(pluginStates[i].0, pluginsMap, selectedPlugins).value(pluginStates[i].1).error)
  {
    var prefix := pluginStates[..i];
    AggregateRejectsIff(prefix, pluginsMap, selectedPlugins);
    assert forall j :: 0 <= j < i ==> prefix[j] == pluginStates[j];
    assert pluginStates[..i + 1][..i] == prefix;
    AggregateFailurePersists(pluginStates, i + 1, pluginsMap, selectedPlugins);
  }

  /**
   * `result[clientID][pluginName]` exists exactly when some entry whose
   * reducer runs decomposes to that pair.
   */
  lemma {:induction false} AggregateSlots<S>(pluginStates: seq<(string, S)>, pluginsMap: map<string, Plugin<S>>,
                                            selectedPlugins: seq<string>, clientID: string, pluginName: string)
    requires Aggregate(pluginStates, pluginsMap, selectedPlugins).Success?
    ensures var m := Aggregate(pluginStates, pluginsMap, selectedPlugins).value;
            (clientID in m && pluginName in m[clientID]) <==>
            exists i :: 0 <= i < |pluginStates| && Reaches(pluginStates[i], pluginsMap, selectedPlugins) &&
                        Decompose(pluginStates[i].0) == (clientID, pluginName)
    decreases |pluginStates|
  {
    if pluginStates != [] {
      var n := |pluginStates| - 1;
      var prefix := pluginStates[..n];
      assert Aggregate(prefix, pluginsMap, selectedPlugins).Success?;
      AggregateSlots(prefix, pluginsMap, selectedPlugins, clientID, pluginName);
      assert forall i :: 0 <= i < n ==> prefix[i] == pluginStates[i];
      var m := Aggregate(pluginStates, pluginsMap, selectedPlugins).value;
      var m' := Aggregate(prefix, pluginsMap, selectedPlugins).value;
      if clientID in m' && pluginName in m'[clientID] {
        var i :| 0 <= i < n && Reaches(prefix[i], pluginsMap, selectedPlugins) &&
                 Decompose(prefix[i].0) == (clientID, pluginName);
        assert Reaches(pluginStates[i], pluginsMap, selectedPlugins);
      }
    }
  }

  /**
   * Each slot holds the metrics of the LAST entry that decomposes to it:
   * a later entry for the same client and plugin overwrites an earlier one.
   */
  lemma {:induction false} AggregateLastWins<S>(pluginStates: seq<(string, S)>, pluginsMap: map<string, Plugin<S>>,
                                               selectedPlugins: seq<string>, i: nat)
    requires Aggregate(pluginStates, pluginsMap, selectedPlugins).Success?
    requires i < |pluginStates| && Reaches(pluginStates[i], pluginsMap, selectedPlugins)
    requires forall j :: i < j < |pluginStates| && Reaches(pluginStates[j], pluginsMap, selectedPlugins) ==>
                         Decompose(pluginStates[j].0) != Decompose(pluginStates[i].0)
    ensures var m := Aggregate(pluginStates, pluginsMap, selectedPlugins).value;
            var (clientID, pluginName) := Decompose(pluginStates[i].0);
            clientID in m && pluginName in m[clientID] &&
            Success(m[clientID][pluginName]) == ReducerFor(pluginStates[i].0, pluginsMap, selectedPlugins).value(pluginStates[i].1)
    decreases |pluginStates|
  {
    var n := |pluginStates| - 1;
    var prefix := pluginStates[..n];
    assert Aggregate(prefix, pluginsMap, selectedPlugins).Success?;
    if i < n {
      assert forall j :: 0 <= j < n ==> prefix[j] == pluginStates[j];
      AggregateLastWins(prefix, pluginsMap, selectedPlugins, i);
    }
  }

  /** No client slot is created empty: a client appears only with some plugin's metrics. */
  lemma {:induction false} AggregateNoEmptyClient<S>(pluginStates: seq<(string, S)>,
                                                    pluginsMap: map<string, Plugin<S>>, selectedPlugins: seq<string>)
    requires Aggregate(pluginStates, pluginsMap, selectedPlugins).Success?
    ensures var m := Aggregate(pluginStates, pluginsMap, selectedPlugins).value;
            forall clientID :: clientID in m ==> m[clientID] != map[]
    decreases |pluginStates|
  {
    if pluginStates != [] {
      var n := |pluginStates| - 1;
      assert Aggregate(pluginStates[..n], pluginsMap, selectedPlugins).Success?;
      AggregateNoEmptyClient(pluginStates[..n], pluginsMap, selectedPlugins);
    }
  }

  /**
   * Only selected plugins with a reducer get a slot: a non-empty selection
   * excludes every other plugin, and a plugin missing from the map or
   * without `metricsReducer` contributes nothing.
   */
  lemma AggregateOnlySelectedReducers<S>(pluginStates: seq<(string, S)>, pluginsMap: map<string, Plugin<S>>,
                                         selectedPlugins: seq<string>, clientID: string, pluginName: string)
    requires Aggregate(pluginStates, pluginsMap, selectedPlugins).Success?
    requires var m := Aggregate(pluginStates, pluginsMap, selectedPlugins).value;
             clientID in m && pluginName in m[clientID]
    ensures |selectedPlugins| > 0 ==> pluginName in selectedPlugins
    ensures pluginName in pluginsMap && pluginsMap[pluginName].metricsReducer.Some?
  {
  }

  /** An empty selection excludes nothing: every state of a plugin with a reducer gets its slot. */
  lemma AggregateEmptySelection<S>(pluginStates: seq<(string, S)>, pluginsMap: map<string, Plugin<S>>,
                                   clientID: string, pluginName: string)
    requires Aggregate(pluginStates, pluginsMap, []).Success?
    ensures var m := Aggregate(pluginStates, pluginsMap, []).value;
            (clientID in m && pluginName in m[clientID]) <==>
            ReducerOf(pluginsMap, pluginName).Some? &&
            exists i :: 0 <= i < |pluginStates| && Decompose(pluginStates[i].0) == (clientID, pluginName)
  {
  }

  /** Because "p" and "#p" decompose alike, the later of the two overwrites the earlier. */
  lemma KeyCollisionOverwrites<S>(first: S, second: S, reducer: Reducer<S>)
    requires reducer(first).Success? && reducer(second).Success?
    ensures var r := Aggregate([("p", first), ("#p", second)], map["p" := Plugin(Some(reducer))], []);
            r == Success(map["" := map["p" := reducer(second).value]])
  {
    DecomposeCollision();
    var pluginStates := [("p", first), ("#p", second)];
    assert pluginStates[..1][..0] == [];
    assert pluginStates[..1] == [("p", first)];
    var pluginsMap := map["p" := Plugin(Some(reducer))];
    var once := map["" := map["p" := reducer(first).value]];
    assert Aggregate(pluginStates[..1], pluginsMap, []) == Success(once);
    assert once[""] + map["p" := reducer(second).value] == map["p" := reducer(second).value];
    assert Merge(once, "", "p", reducer(second).value) == map["" := map["p" := reducer(second).value]];
    assert ReducerFor("#p", pluginsMap, []) == Some(reducer);
    assert Aggregate(pluginStates, pluginsMap, []) ==
           Step(Success(once), ("#p", second), pluginsMap, []);
  }

  // ---------------------------------------------------------------------------
  // Trace import
  // ---------------------------------------------------------------------------

  /** A value `JSON.parse` can return, as far as the importer looks into it. */
  datatype Json =
    | Null
    | Bool(b: bool)
    | Number(n: int)
    | Str(s: string)
    | Array(items: seq<Json>)
    | Object(properties: seq<(string, Json)>)  // as written in the text, a repeated name included

  /** JavaScript truthiness, which every check of the importer uses. */
  predicate Truthy(v: Json)
  {
    match v
    case Null => false
    case Bool(b) => b
    case Number(n) => n != 0
    case Str(s) => s != ""
    case Array(_) => true
    case Object(_) => true
  }

  /** The value of a named property: a name written twice keeps its last value, as `JSON.parse` resolves it. */
  function Lookup(properties: seq<(string, Json)>, name: string): (r: Option<Json>)
    ensures r.None? ==> forall i :: 0 <= i < |properties| ==> properties[i].0 != name
    ensures r.Some? ==> exists i :: 0 <= i < |properties| && properties[i] == (name, r.value) &&
                                    forall j :: i < j < |properties| ==> properties[j].0 != name
    decreases |properties|
  {
    if properties == [] then None
    else
      var n := |properties| - 1;
      if properties[n].0 == name then Some(properties[n].1)
      else Lookup(properties[..n], name)
  }

  /** `v.name`: only objects carry `store` or `pluginStates`; on anything else the read is `undefined`. */
  function Property(v: Json, name: string): Option<Json>
  {
    if v.Object? then Lookup(v.properties, name) else None
  }

  /** The property names of an object, each once, in the order of their first appearance. */
  function Names(properties: seq<(string, Json)>): (names: seq<string>)
    ensures forall i, j :: 0 <= i < j < |names| ==> names[i] != names[j]
    ensures forall k :: 0 <= k < |names| ==> exists i :: 0 <= i < |properties| && properties[i].0 == names[k]
    ensures forall i :: 0 <= i < |properties| ==> properties[i].0 in names
    decreases |properties|
  {
    if properties == [] then []
    else
      var n := |properties| - 1;
      var earlier := Names(properties[..n]);
      assert forall k :: 0 <= k < |earlier| ==> exists i :: 0 <= i < n && properties[i].0 == earlier[k] by {
        forall k | 0 <= k < |earlier|
          ensures exists i :: 0 <= i < n && properties[i].0 == earlier[k]
        {
          var i :| 0 <= i < n && properties[..n][i].0 == earlier[k];
        }
      }
      if properties[n].0 in earlier then earlier else earlier + [properties[n].0]
  }

  /**
   * What `for (const key in pluginStates)` walks over: each property name of
   * an object once, in the order of its first appearance, with the value a
   * read of that name gives; nothing for any other value.
   */
  function Entries(v: Json): (entries: seq<(string, Json)>)
    ensures !v.Object? ==> entries == []
    ensures forall i, j :: 0 <= i < j < |entries| ==> entries[i].0 != entries[j].0
    ensures forall k :: 0 <= k < |entries| ==> Property(v, entries[k].0) == Some(entries[k].1)
    ensures v.Object? ==> forall i :: 0 <= i < |v.properties| ==> v.properties[i].0 in EntryNames(entries)
  {
    if v.Object? then
      var names := Names(v.properties);
      var entries := seq(|names|, k requires 0 <= k < |names| => (names[k], Lookup(v.properties, names[k]).value));
      assert EntryNames(entries) == names;
      entries
    else []
  }

  /** The names of a walk's entries, in order. */
  function EntryNames(entries: seq<(string, Json)>): seq<string>
  {
    seq(|entries|, k requires 0 <= k < |entries| => entries[k].0)
  }

  /** Property names written once each, as in every object `JSON.stringify` produces. */
  predicate DistinctNames(properties: seq<(string, Json)>)
  {
    forall i, j :: 0 <= i < j < |properties| ==> properties[i].0 != properties[j].0
  }

  /** An object whose names are all distinct is walked exactly as written. */
  lemma EntriesOfDistinct(properties: seq<(string, Json)>)
    requires DistinctNames(properties)
    ensures Entries(Object(properties)) == properties
  {
    NamesOfDistinct(properties);
    var entries := Entries(Object(properties));
    forall k | 0 <= k < |properties| ensures entries[k] == properties[k] {
      LookupDistinct(properties, k);
    }
  }

  /** Without repeated names, a read of a property's name gives that property's value. */
  lemma LookupDistinct(properties: seq<(string, Json)>, k: nat)
    requires DistinctNames(properties) && k < |properties|
    ensures Lookup(properties, properties[k].0) == Some(properties[k].1)
  {
    var found := Lookup(properties, properties[k].0);
    var i :| 0 <= i < |properties| && properties[i] == (properties[k].0, found.value) &&
             forall j :: i < j < |properties| ==> properties[j].0 != properties[k].0;
    if i < k {
      assert false;
    } else if k < i {
      assert properties[k].0 != properties[i].0;
    }
  }

  /** Without repeated names, the names are the properties' names in order. */
  lemma {:induction false} NamesOfDistinct(properties: seq<(string, Json)>)
    requires DistinctNames(properties)
    ensures |Names(properties)| == |properties|
    ensures forall k :: 0 <= k < |properties| ==> Names(properties)[k] == properties[k].0
    decreases |properties|
  {
    if properties != [] {
      var n := |properties| - 1;
      NamesOfDistinct(properties[..n]);
      var earlier := Names(properties[..n]);
      assert properties[n].0 !in earlier by {
        forall k | 0 <= k < |earlier| ensures earlier[k] != properties[n].0 {
          assert earlier[k] == properties[k].0;
        }
      }
    }
  }

  /** A name written twice is walked once, with its last value: `{"c#p": 1, "c#p": 2}` yields only `c#p: 2`. */
  lemma RepeatedNameWalkedOnce(first: Json, second: Json)
    ensures Entries(Object([("c#p", first), ("c#p", second)])) == [("c#p", second)]
  {
    var properties := [("c#p", first), ("c#p", second)];
    assert properties[..1] == [("c#p", first)];
    assert Names(properties[..1][..0]) == [];
    assert Names(properties[..1]) == ["c#p"];
    assert Names(properties) == ["c#p"];
  }

  /** The ways `exportMetricsFromTrace` rejects. */
  datatype ImportError = InvalidJson | NoStore | NoPluginStates | ReducerRejected(reason: string)

  /** The message of the `Error` each rejection carries. */
  function Message(e: ImportError): string
  {
    match e
    case InvalidJson => "Please pass the file which has a valid JSON"
    case NoStore => "No store in the imported file, thus exiting without exporting metrics."
    case NoPluginStates => "No pluginStates in the imported file, thus exiting without exporting metrics."
    case ReducerRejected(reason) => reason
  }

  /** The three trace rejections carry three different messages. */
  lemma MessagesDistinct()
    ensures Message(InvalidJson) != Message(NoStore)
    ensures Message(InvalidJson) != Message(NoPluginStates)
    ensures Message(NoStore) != Message(NoPluginStates)
  {
    var invalid, noStore, noPluginStates := Message(InvalidJson), Message(NoStore), Message(NoPluginStates);
    assert |invalid| < |noStore| < |noPluginStates|;
  }

  /**
   * The guard chain of `exportMetricsFromTrace`. `parsed` is what
   * `parseJSON` returned: None when `JSON.parse` threw (its `undefined`).
   * `deserializeObject` is taken as the identity.
   */
  function LoadPluginStates(parsed: Option<Json>): Result<seq<(string, Json)>, ImportError>
  {
    if parsed.None? || !Truthy(parsed.value) then Failure(InvalidJson)
    else
      var importedStore := Property(parsed.value, "store");
      if importedStore.None? || !Truthy(importedStore.value) then Failure(NoStore)
      else
        var pluginStates := Property(importedStore.value, "pluginStates");
        if pluginStates.None? || !Truthy(pluginStates.value) then Failure(NoPluginStates)
        else Success(Entries(pluginStates.value))
  }

  /**
   * `exportMetricsFromTrace`: a rejected trace yields its own error before
   * any reducer runs; otherwise the result is exactly `exportMetrics` of the
   * embedded plugin states.
   */
  method ExportMetricsFromTrace(parsed: Option<Json>, pluginsMap: map<string, Plugin<Json>>,
                                selectedPlugins: seq<string>)
    returns (r: Result<ExportMetricType, ImportError>)
    ensures LoadPluginStates(parsed).Failure? ==> r == Failure(LoadPluginStates(parsed).error)
    ensures LoadPluginStates(parsed).Success? ==>
            r == match Aggregate(LoadPluginStates(parsed).value, pluginsMap, selectedPlugins)
                 case Success(metrics) => Success(metrics)
                 case Failure(reason) => Failure(ReducerRejected(reason))
  {
    var loaded := LoadPluginStates(parsed);
    if loaded.Failure? {
      return Failure(loaded.error);
    }
    var metrics := ExportMetrics(loaded.value, pluginsMap, selectedPlugins);
    if metrics.Failure? {
      return Failure(ReducerRejected(metrics.error));
    }
    r := Success(metrics.value);
  }

  /** Unparseable text and every falsy JSON value get the same "valid JSON" rejection. */
  lemma FalsyIsInvalidJson(v: Json)
    requires !Truthy(v)
    ensures LoadPluginStates(Some(v)) == LoadPluginStates(None) == Failure(InvalidJson)
  {
  }

  /** A document with a truthy `store` property passes the first two checks; then only `pluginStates` decides. */
  lemma StoreDecides(properties: seq<(string, Json)>, store: Json)
    requires Truthy(store)
    requires exists i :: 0 <= i < |properties| && properties[i] == ("store", store) &&
                         forall j :: i < j < |properties| ==> properties[j].0 != "store"
    ensures var r := LoadPluginStates(Some(Object(properties)));
            var pluginStates := Property(store, "pluginStates");
            r == if pluginStates.None? || !Truthy(pluginStates.value) then Failure(NoPluginStates)
                 else Success(Entries(pluginStates.value))
  {
  }

  /** A document without any `store` property is rejected as such, whatever else it holds. */
  lemma NoStoreProperty(properties: seq<(string, Json)>)
    requires forall i :: 0 <= i < |properties| ==> properties[i].0 != "store"
    ensures LoadPluginStates(Some(Object(properties))) == Failure(NoStore)
  {
  }

  /** The shape the exporter writes, `{store: {pluginStates: P}}`, yields the entries of `P`: exactly `P` when its names are distinct. */
  lemma {:induction false} WellFormedTrace(pluginStates: seq<(string, Json)>)
    ensures LoadPluginStates(Some(TraceDocument(pluginStates))) == Success(Entries(Object(pluginStates)))
    ensures DistinctNames(pluginStates) ==> LoadPluginStates(Some(TraceDocument(pluginStates))) == Success(pluginStates)
  {
    var states := Object(pluginStates);
    var store := Object([("pluginStates", states)]);
    assert Lookup([("pluginStates", states)], "pluginStates") == Some(states);
    assert Lookup([("store", store)], "store") == Some(store);
    assert Property(TraceDocument(pluginStates), "store") == Some(store);
    assert Property(store, "pluginStates") == Some(states);
    if DistinctNames(pluginStates) {
      EntriesOfDistinct(pluginStates);
    }
  }

  /** `{store: {pluginStates: P}}`. */
  function TraceDocument(pluginStates: seq<(string, Json)>): Json
  {
    Object([("store", Object([("pluginStates", Object(pluginStates))]))])
  }
}
