/**
 * The one-line previews of `DataPreview`
 * (`src/ui/components/data-inspector/DataPreview.tsx`): arrays as
 * `[a, b, c]`, dates as their text, objects as `{k1, k2, …}` with at most
 * `maxProperties` keys. Rendered elements are modelled as a small datatype
 * of pieces; `extractValue` and `getSortedKeys` are inputs.
 */
module DataPreview {
  import opened Wrappers

  /** What `extractValue` yields for an element it can describe. */
  datatype Extracted<V> = Extracted(kind: string, value: V)

  /** One child of a preview. */
  datatype Node<V> =
    | Text(text: string)                      // literal text: a bracket, ", " or a date
    | Empty                                   // a `null` child
    | Description(kind: string, value: V)     // a `DataDescription` of an element
    | Name(key: string, ellipsis: bool)       // an `InspectorName`, followed by "…" when `ellipsis`

  /** The fold of `intersperse`: append `sep, x` for every `x` of `rest`. */
  function InterspersedFold<T>(rest: seq<T>, sep: T, xs: seq<T>): (r: seq<T>)
    ensures |r| == |xs| + 2 * |rest|
    ensures r[..|xs|] == xs
    ensures forall k :: |xs| <= k < |r| ==> r[k] == if (k - |xs|) % 2 == 0 then sep else rest[(k - |xs|) / 2]
    decreases |rest|
  {
    if rest == [] then xs
    else InterspersedFold(rest[1..], sep, xs + [sep, rest[0]])
  }

  /**
   * `intersperse(arr, sep)`: the elements in order with `sep` between
   * neighbours; even positions hold the elements, odd ones the separator.
   */
  function Intersperse<T>(arr: seq<T>, sep: T): (r: seq<T>)
    ensures |arr| == 0 ==> r == []
    ensures |arr| > 0 ==> |r| == 2 * |arr| - 1
    ensures forall k :: 0 <= k < |r| ==> r[k] == if k % 2 == 0 then arr[k / 2] else sep
  {
    if |arr| == 0 then []
    else InterspersedFold(arr[1..], sep, [arr[0]])
  }

  /** The child the array preview renders for one element: null when `extractValue` gives nothing. */
  function Slot<V>(extractValue: (V, int) -> Option<Extracted<V>>, element: V, depth: int): Node<V>
  {
    match extractValue(element, depth + 1)
    case None => Empty
    case Some(res) => Description(res.kind, res.value)
  }

  /**
   * The array preview: one slot per element, in order, separated by ", "
   * even where a slot is null, between "[" and "]".
   */
  function ArrayPreview<V>(elements: seq<V>, depth: int, extractValue: (V, int) -> Option<Extracted<V>>)
    : (r: seq<Node<V>>)
    ensures |r| == if |elements| == 0 then 2 else 2 * |elements| + 1
    ensures r[0] == Text("[") && r[|r| - 1] == Text("]")
    ensures forall k :: 0 < k < |r| - 1 ==>
              r[k] == if k % 2 == 1 then Slot(extractValue, elements[k / 2], depth) else Text(", ")
  {
    var slots := seq(|elements|, i requires 0 <= i < |elements| => Slot(extractValue, elements[i], depth));
    var inner := Intersperse(slots, Text(", "));
    var r := [Text("[")] + inner + [Text("]")];
    assert forall k :: 0 < k < |r| - 1 ==>
             r[k] == if k % 2 == 1 then Slot(extractValue, elements[k / 2], depth) else Text(", ") by {
      forall k | 0 < k < |r| - 1
        ensures r[k] == if k % 2 == 1 then Slot(extractValue, elements[k / 2], depth) else Text(", ")
      {
        assert r[k] == inner[k - 1];
        if k % 2 == 1 {
          assert (k - 1) % 2 == 0 && (k - 1) / 2 == k / 2;
        } else {
          assert (k - 1) % 2 == 1;
        }
      }
    }
    r
  }

  /**
   * The key names of the object preview: the keys in order up to and
   * including the first whose 1-based position reaches `maxProperties`,
   * that last one carrying the ellipsis.
   */
  ghost predicate Truncated<V>(keys: seq<string>, maxProperties: int, nodes: seq<Node<V>>)
  {
    && |nodes| == (if |keys| < maxProperties || |keys| == 0 then |keys| else if maxProperties < 1 then 1 else maxProperties)
    && (forall j :: 0 <= j < |nodes| ==> nodes[j].Name? && nodes[j].key == keys[j])
    && (forall j :: 0 <= j < |nodes| ==> (nodes[j].ellipsis <==> j == |nodes| - 1 && |keys| >= maxProperties))
  }

  /** The loop of the object branch: count the keys, stop after the one that gets the ellipsis. */
  method PropertyNodes<V>(keys: seq<string>, maxProperties: int) returns (propertyNodes: seq<Node<V>>)
    ensures Truncated(keys, maxProperties, propertyNodes)
  {
    propertyNodes := [];
    var i := 0;
    while i < |keys|
      invariant 0 <= i <= |keys| && |propertyNodes| == i
      invariant i == 0 || i < maxProperties
      invariant forall j :: 0 <= j < i ==> propertyNodes[j] == Name(keys[j], false)
    {
      var key := keys[i];
      i := i + 1;
      var ellipsis := i >= maxProperties;
      propertyNodes := propertyNodes + [Name(key, ellipsis)];
      if ellipsis {
        break;
      }
    }
  }

  /** `defaultProps`: `maxProperties` is 5 unless given. */
  const DefaultMaxProperties: int := 5

  /** The `maxProperties` prop after React has applied the defaults. */
  function MaxProperties(given: Option<int>): int
  {
    if given.Some? then given.value else DefaultMaxProperties
  }

  /** The value being previewed, in the shape its `type` implies. */
  datatype Value<V> =
    | ArrayValue(elements: seq<V>)
    | DateValue(text: string)          // what `value.toString()` gives
    | ObjectValue(sortedKeys: seq<string>)  // what `getSortedKeys(value)` gives
    | OtherValue

  /** `render`: the preview's children, or None for the `null` of any other type. */
  method Render<V>(kind: string, value: Value<V>, depth: int, extractValue: (V, int) -> Option<Extracted<V>>,
                   maxProperties: Option<int>)
    returns (r: Option<seq<Node<V>>>)
    requires kind == "array" ==> value.ArrayValue?
    requires kind == "date" ==> value.DateValue?
    requires kind == "object" ==> value.ObjectValue?
    ensures kind == "array" ==> r == Some(ArrayPreview(value.elements, depth, extractValue))
    ensures kind == "date" ==> r == Some([Text(value.text)])
    ensures kind == "object" ==>
              exists nodes :: Truncated(value.sortedKeys, MaxProperties(maxProperties), nodes) &&
                              r == Some([Text("{")] + Intersperse(nodes, Text(", ")) + [Text("}")])
    ensures kind != "array" && kind != "date" && kind != "object" ==> r == None
  {
    if kind == "array" {
      r := Some(ArrayPreview(value.elements, depth, extractValue));
    } else if kind == "date" {
      r := Some([Text(value.text)]);
    } else if kind == "object" {
      var propertyNodes: seq<Node<V>> := PropertyNodes(value.sortedKeys, MaxProperties(maxProperties));
      r := Some([Text("{")] + Intersperse(propertyNodes, Text(", ")) + [Text("}")]);
    } else {
      r := None;
    }
  }

  /** Truncation determines the shown keys completely. */
  lemma TruncatedUnique<V>(keys: seq<string>, maxProperties: int, a: seq<Node<V>>, b: seq<Node<V>>)
    requires Truncated(keys, maxProperties, a) && Truncated(keys, maxProperties, b)
    ensures a == b
  {
  }

  /** With the default of 5 and more keys than that, exactly five are shown, the fifth with "…". */
  lemma DefaultShowsFive<V>(keys: seq<string>, nodes: seq<Node<V>>)
    requires |keys| > 5
    requires Truncated(keys, MaxProperties(None), nodes)
    ensures |nodes| == 5 && nodes[4] == Name(keys[4], true)
  {
  }

  /** When the number of keys equals `maxProperties` every key is shown, yet the ellipsis still appears. */
  lemma EllipsisWhenNothingDropped<V>(keys: seq<string>, nodes: seq<Node<V>>)
    requires |keys| > 0
    requires Truncated(keys, |keys|, nodes)
    ensures |nodes| == |keys| && nodes[|keys| - 1].ellipsis
  {
  }
}
