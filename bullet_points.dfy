/**
 * The bullet-point panel: the points are shown read-only, or, in edit mode, as one input per
 * point over an edit buffer; saving hands the buffer to `onChange` (the handler's result here),
 * cancelling resets the buffer to the current `points`.
 */
module BulletPoints {
  import opened Text

  /** The copy button's text: the displayed points, not the edit buffer, one per line. */
  function CopyText(points: seq<string>): (r: string)
    ensures points == [] ==> r == ""
    ensures |points| == 1 ==> r == points[0]
    ensures |points| > 1 ==> points[0] + "\n" <= r
  {
    Join(points, "\n")
  }

  /** When no point contains a newline, the copied text splits back into exactly the points. */
  lemma CopyTextSplitsIntoPoints(points: seq<string>)
    requires |points| >= 1
    requires forall i :: 0 <= i < |points| ==> '\n' !in points[i]
    ensures Split(CopyText(points), '\n') == points
  {
    SplitJoin(points, '\n');
  }

  class Editor {
    var editing: bool
    var editedPoints: seq<string>

    /** `useState(points)`: the buffer is taken from `points` once, when the panel mounts. */
    constructor (points: seq<string>)
      ensures !editing && editedPoints == points
    {
      editing := false;
      editedPoints := points;
    }

    /** The edit button. */
    method StartEditing()
      modifies this
      ensures editing && editedPoints == old(editedPoints)
    {
      editing := true;
    }

    /**
     * `handleEdit(index, value)`: a copy of the buffer with `index` set to `value` replaces the
     * buffer; the inputs are rendered from the buffer, so `index` is one of its positions.
     */
    method Edit(index: nat, value: string)
      requires index < |editedPoints|
      modifies this
      ensures |editedPoints| == |old(editedPoints)|
      ensures editedPoints[index] == value
      ensures forall i :: 0 <= i < |editedPoints| && i != index ==> editedPoints[i] == old(editedPoints)[i]
      ensures editing == old(editing)
    {
      var newPoints := new string[|editedPoints|](i requires 0 <= i < |editedPoints| reads this => editedPoints[i]);
      newPoints[index] := value;
      editedPoints := newPoints[..];
    }

    /** `handleSave()`: `onChange` receives exactly the buffer, and edit mode ends. */
    method Save() returns (committed: seq<string>)
      modifies this
      ensures committed == old(editedPoints)
      ensures !editing && editedPoints == old(editedPoints)
    {
      committed := editedPoints;
      editing := false;
    }

    /** `handleCancel()`: the buffer is reset to the current `points`, and edit mode ends. */
    method Cancel(points: seq<string>)
      modifies this
      ensures !editing && editedPoints == points
    {
      editedPoints := points;
      editing := false;
    }
  }

  /** Editing a position and then cancelling leaves the buffer equal to `points`. */
  method EditThenCancel(points: seq<string>, index: nat, value: string) returns (buffer: seq<string>)
    requires index < |points|
    ensures buffer == points
  {
    var editor := new Editor(points);
    editor.StartEditing();
    editor.Edit(index, value);
    editor.Cancel(points);
    buffer := editor.editedPoints;
  }

  /** The buffer is taken from `points` only at mount: a later `points` from the parent is not
      seen by the buffer until cancel adopts it. */
  method NewPointsAdoptedOnCancel(mounted: seq<string>, current: seq<string>)
    returns (beforeCancel: seq<string>, afterCancel: seq<string>)
    ensures beforeCancel == mounted && afterCancel == current
  {
    var editor := new Editor(mounted);
    editor.StartEditing();
    beforeCancel := editor.editedPoints;
    editor.Cancel(current);
    afterCancel := editor.editedPoints;
  }
}
