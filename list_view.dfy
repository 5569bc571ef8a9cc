/**
 * The selection state of the `ListView` dialog (`src/chrome/ListView.tsx`):
 * a set of selected element names, seeded from the props, changed by the
 * rows' checkboxes and handed to `onSelect` on Submit.
 */
module ListView {
  import opened Wrappers

  /** The props that decide the selection: the mode, its initial selection and the listed elements. */
  datatype Props =
    | Multiple(selectedElements: set<string>, elements: seq<string>)
    | Single(selectedElement: string, elements: seq<string>)

  /**
   * `getDerivedStateFromProps`: None (`null`, keep the state) for a
   * non-empty selection, otherwise the selection the props seed.
   */
  function DerivedSelection(props: Props, selectedElements: set<string>): Option<set<string>>
  {
    if |selectedElements| > 0 then None
    else match props
      case Multiple(initial, _) => Some(initial)
      case Single(initial, _) => Some({initial})
  }

  /** The selection after React has merged the derived state into the current one. */
  function SyncedSelection(props: Props, selectedElements: set<string>): (r: set<string>)
    ensures |selectedElements| > 0 ==> r == selectedElements
    ensures selectedElements == {} && props.Multiple? ==> r == props.selectedElements
    ensures selectedElements == {} && props.Single? ==> r == {props.selectedElement}
  {
    match DerivedSelection(props, selectedElements)
    case None => selectedElements
    case Some(derived) => derived
  }

  /** React calls `getDerivedStateFromProps` before every render; doing it twice changes nothing more. */
  lemma SyncedSelectionIdempotent(props: Props, selectedElements: set<string>)
    ensures SyncedSelection(props, SyncedSelection(props, selectedElements)) == SyncedSelection(props, selectedElements)
  {
  }

  /** The selection `handleChange(id, selected)` sets. */
  function ChangedSelection(props: Props, selectedElements: set<string>, id: string, selected: bool): set<string>
  {
    if props.Single? then
      (if !selected then {} else {id})
    else if selected then selectedElements + {id}
    else selectedElements - {id}
  }

  /** The set `handleChange` stores holds `id` exactly when its checkbox was set. */
  lemma ChangeShowsRequest(props: Props, selectedElements: set<string>, id: string, selected: bool)
    ensures id in ChangedSelection(props, selectedElements, id, selected) <==> selected
  {
  }

  /** The selection the props seed an empty state with. */
  function Seed(props: Props): set<string>
  {
    if props.Multiple? then props.selectedElements else {props.selectedElement}
  }

  /**
   * What the next render shows after a change: React derives the state from
   * the props again, so a change that leaves something selected shows as
   * requested, while a change that empties the selection snaps back to the
   * seed of the props.
   */
  lemma RenderAfterChange(props: Props, selectedElements: set<string>, id: string, selected: bool)
    ensures var changed := ChangedSelection(props, selectedElements, id, selected);
            var shown := SyncedSelection(props, changed);
            && (changed != {} ==> shown == changed && (id in shown <==> selected))
            && (changed == {} ==> shown == Seed(props))
  {
    var changed := ChangedSelection(props, selectedElements, id, selected);
    ChangeShowsRequest(props, selectedElements, id, selected);
    if changed != {} {
      assert |changed| > 0;
    }
  }

  /** In single mode, unchecking any row brings the initial `selectedElement` back at the next render. */
  lemma SingleUncheckSnapsBack(props: Props, selectedElements: set<string>, id: string)
    requires props.Single?
    ensures SyncedSelection(props, ChangedSelection(props, selectedElements, id, false)) == {props.selectedElement}
  {
  }

  /** In multiple mode, unchecking the last selected row brings the initial `selectedElements` back. */
  lemma MultipleUncheckLastSnapsBack(props: Props, id: string)
    requires props.Multiple?
    ensures SyncedSelection(props, ChangedSelection(props, {id}, id, false)) == props.selectedElements
  {
    assert ChangedSelection(props, {id}, id, false) == {};
  }

  /** In single mode a change leaves at most one element selected, and deselecting clears it whatever `id` is. */
  lemma SingleAtMostOne(props: Props, selectedElements: set<string>, id: string, selected: bool)
    requires props.Single?
    ensures |ChangedSelection(props, selectedElements, id, selected)| <= 1
    ensures !selected ==> ChangedSelection(props, selectedElements, id, selected) == {}
    ensures selected ==> ChangedSelection(props, selectedElements, id, selected) == {id}
  {
  }

  /**
   * In multiple mode a change touches only `id`: every other element keeps
   * its state, and selecting an already selected element changes nothing.
   */
  lemma MultipleOnlyTouchesId(props: Props, selectedElements: set<string>, id: string, selected: bool, other: string)
    requires props.Multiple?
    requires other != id
    ensures other in ChangedSelection(props, selectedElements, id, selected) <==> other in selectedElements
    ensures selected && id in selectedElements ==> ChangedSelection(props, selectedElements, id, selected) == selectedElements
  {
  }

  /** In multiple mode, deselecting undoes selecting an element that was not selected. */
  lemma MultipleDeselectUndoes(props: Props, selectedElements: set<string>, id: string)
    requires props.Multiple? && id !in selectedElements
    ensures ChangedSelection(props, ChangedSelection(props, selectedElements, id, true), id, false) == selectedElements
  {
  }

  /** The dialog component and its `state.selectedElements`. */
  class ListViewComponent {
    const props: Props
    var selectedElements: set<string>

    /** The initial state is the empty selection. */
    constructor (props: Props)
      ensures this.props == props && selectedElements == {}
    {
      this.props := props;
      selectedElements := {};
    }

    /** Applies `getDerivedStateFromProps`, as React does before rendering. */
    method SyncFromProps()
      modifies this`selectedElements
      ensures selectedElements == SyncedSelection(props, old(selectedElements))
    {
      var derived := DerivedSelection(props, selectedElements);
      if derived.Some? {
        selectedElements := derived.value;
      }
    }

    /** `handleChange`: a row's checkbox was set to `selected`. */
    method HandleChange(id: string, selected: bool)
      modifies this`selectedElements
      ensures selectedElements == ChangedSelection(props, old(selectedElements), id, selected)
    {
      if props.Single? {
        if !selected {
          selectedElements := {};
        } else {
          selectedElements := {id};
        }
      } else {
        if selected {
          selectedElements := selectedElements + {id};
        } else {
          var copy := selectedElements;
          copy := copy - {id};
          selectedElements := copy;
        }
      }
    }

    /** A checkbox change followed by the derivation React runs before the next render. */
    method ChangeAndRerender(id: string, selected: bool)
      modifies this`selectedElements
      ensures selectedElements == SyncedSelection(props, ChangedSelection(props, old(selectedElements), id, selected))
    {
      HandleChange(id, selected);
      SyncFromProps();
    }

    /** The checkbox state of each listed row, in the listed order. */
    function RowStates(): (rows: seq<bool>)
      reads this
      ensures |rows| == |props.elements|
      ensures forall i :: 0 <= i < |rows| ==> rows[i] == (props.elements[i] in selectedElements)
    {
      seq(|props.elements|, i requires 0 <= i < |props.elements| reads this => props.elements[i] in selectedElements)
    }

    /** Submit: `[...selectedElements]`, each selected element exactly once. */
    method Submit() returns (chosen: seq<string>)
      ensures |chosen| == |selectedElements|
      ensures forall x :: x in chosen <==> x in selectedElements
      ensures forall i, j :: 0 <= i < j < |chosen| ==> chosen[i] != chosen[j]
    {
      chosen := [];
      var rest := selectedElements;
      while rest != {}
        invariant rest <= selectedElements
        invariant forall x :: x in chosen <==> x in selectedElements - rest
        invariant |chosen| + |rest| == |selectedElements|
        invariant forall i, j :: 0 <= i < j < |chosen| ==> chosen[i] != chosen[j]
        decreases |rest|
      {
        var x :| x in rest;
        assert x !in chosen;
        chosen := chosen + [x];
        rest := rest - {x};
      }
    }
  }
}
