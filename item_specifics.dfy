/**
 * The item-specifics panel: an attribute map shown as `key: value` rows that can be edited in
 * place, added to and deleted from. The map belongs to the parent; every handler works on a copy
 * and hands the new map to `onChange`, modelled here as the handler's result (`None` when
 * `onChange` is not called). The panel's own state is the class below.
 */
module ItemSpecifics {
  import opened Wrappers
  import opened Text
  import opened Entries

  /** `formatSpecifics(specs)`: one `key: value` line per entry, in entry order, joined by "\n". */
  function FormatSpecifics(specs: Option<Entries>): (r: string)
    ensures specs.None? || specs == Some([]) ==> r == ""
    ensures specs.Some? && |specs.value| == 1 ==> r == Line(specs.value[0])
  {
    Join(Lines(specs.GetOr([])), "\n")
  }

  /** When no key or value contains a newline, splitting the copied text on "\n" gives the lines
      back, one per entry and in entry order. */
  lemma FormatSplitsIntoLines(e: Entries)
    requires |e| >= 1
    requires forall i :: 0 <= i < |e| ==> '\n' !in e[i].0 && '\n' !in e[i].1
    ensures Split(FormatSpecifics(Some(e)), '\n') == Lines(e)
  {
    var lines := Lines(e);
    forall i | 0 <= i < |lines| ensures '\n' !in lines[i] {
      assert lines[i] == e[i].0 + ": " + e[i].1;
    }
    SplitJoin(lines, '\n');
  }

  /** Adding a new attribute appends exactly one line at the end of the copied text. */
  lemma FormatAfterAdd(e: Entries, k: string, v: string)
    requires |e| >= 1 && Lookup(e, k).None?
    ensures FormatSpecifics(Some(Put(e, k, v))) == FormatSpecifics(Some(e)) + "\n" + k + ": " + v
  {
    assert Put(e, k, v) == e + [(k, v)];
    assert Lines(e + [(k, v)]) == Lines(e) + [Line((k, v))];
    JoinAppend(Lines(e), Line((k, v)), "\n");
  }

  /** Deleting the attribute at position `i` drops exactly its line from the copied text, the
      other lines keeping their order. */
  lemma FormatAfterDelete(e: Entries, i: nat)
    requires UniqueKeys(e) && i < |e|
    ensures FormatSpecifics(Some(Remove(e, e[i].0))) == Join(Lines(e)[..i] + Lines(e)[i + 1..], "\n")
  {
    RemoveAt(e, i);
    LinesWithout(e, i);
  }

  class Editor {
    var editKey: string
    var editValue: string
    var isAdding: bool
    var newKey: string
    var newValue: string

    /** The add form's fields are empty whenever the form is closed. */
    predicate Valid()
      reads this
    {
      !isAdding ==> newKey == "" && newValue == ""
    }

    constructor ()
      ensures Valid()
      ensures editKey == "" && editValue == "" && !isAdding && newKey == "" && newValue == ""
    {
      editKey, editValue := "", "";
      isAdding, newKey, newValue := false, "", "";
    }

    /** `handleStartEdit(key, value)`: the row of `key` turns into an input holding `value`. */
    method StartEdit(key: string, value: string)
      requires Valid()
      modifies this
      ensures Valid()
      ensures editKey == key && editValue == value
      ensures isAdding == old(isAdding) && newKey == old(newKey) && newValue == old(newValue)
    {
      editKey := key;
      editValue := value;
    }

    /** The edit input's `onChange`. */
    method SetEditValue(value: string)
      requires Valid()
      modifies this
      ensures Valid()
      ensures editValue == value && editKey == old(editKey)
      ensures isAdding == old(isAdding) && newKey == old(newKey) && newValue == old(newValue)
    {
      editValue := value;
    }

    /**
     * `handleSaveEdit()`: nothing happens while `editKey` is empty. Otherwise `onChange` receives a
     * copy of the map in which `editKey` maps to the untrimmed `editValue`, or an unchanged copy
     * when that value is blank (the key is not deleted), and the edit state is cleared.
     */
    method SaveEdit(specifics: Entries) returns (changed: Option<Entries>)
      requires Valid()
      modifies this
      ensures Valid()
      ensures old(editKey) == "" ==> changed.None? && editKey == old(editKey) && editValue == old(editValue)
      ensures old(editKey) != "" ==> editKey == "" && editValue == ""
      ensures old(editKey) != "" && Trim(old(editValue)) != "" ==>
                changed == Some(Put(specifics, old(editKey), old(editValue)))
      ensures old(editKey) != "" && Trim(old(editValue)) == "" ==> changed == Some(specifics)
      ensures isAdding == old(isAdding) && newKey == old(newKey) && newValue == old(newValue)
    {
      changed := None;
      if editKey != "" {
        var newSpecifics := specifics;
        if Trim(editValue) != "" {
          newSpecifics := Put(newSpecifics, editKey, editValue);
        }
        changed := Some(newSpecifics);
        editKey := "";
        editValue := "";
      }
    }

    /** `handleCancelEdit()`: leaves edit mode; the map is untouched. */
    method CancelEdit()
      requires Valid()
      modifies this
      ensures Valid()
      ensures editKey == "" && editValue == ""
      ensures isAdding == old(isAdding) && newKey == old(newKey) && newValue == old(newValue)
    {
      editKey := "";
      editValue := "";
    }

    /** `handleStartAdd()`: opens the add form with empty fields. */
    method StartAdd()
      requires Valid()
      modifies this
      ensures Valid()
      ensures isAdding && newKey == "" && newValue == ""
      ensures editKey == old(editKey) && editValue == old(editValue)
    {
      isAdding := true;
      newKey := "";
      newValue := "";
    }

    /** The add form's name input `onChange`; the input exists only while the form is open. */
    method SetNewKey(key: string)
      requires Valid() && isAdding
      modifies this
      ensures Valid()
      ensures newKey == key
      ensures isAdding == old(isAdding) && newValue == old(newValue)
      ensures editKey == old(editKey) && editValue == old(editValue)
    {
      newKey := key;
    }

    /** The add form's value input `onChange`; the input exists only while the form is open. */
    method SetNewValue(value: string)
      requires Valid() && isAdding
      modifies this
      ensures Valid()
      ensures newValue == value
      ensures isAdding == old(isAdding) && newKey == old(newKey)
      ensures editKey == old(editKey) && editValue == old(editValue)
    {
      newValue := value;
    }

    /**
     * `handleSaveAdd()`: only when both the name and the value are non-blank does `onChange`
     * receive a copy with the (untrimmed) name mapped to the value, and the form close and clear;
     * otherwise nothing changes.
     */
    method SaveAdd(specifics: Entries) returns (changed: Option<Entries>)
      requires Valid()
      modifies this
      ensures Valid()
      ensures changed.Some? <==> Trim(old(newKey)) != "" && Trim(old(newValue)) != ""
      ensures changed.Some? ==> changed.value == Put(specifics, old(newKey), old(newValue))
      ensures changed.Some? ==> !isAdding && newKey == "" && newValue == ""
      ensures changed.None? ==> isAdding == old(isAdding) && newKey == old(newKey) && newValue == old(newValue)
      ensures editKey == old(editKey) && editValue == old(editValue)
    {
      changed := None;
      if Trim(newKey) != "" && Trim(newValue) != "" {
        var newSpecifics := specifics;
        newSpecifics := Put(newSpecifics, newKey, newValue);
        changed := Some(newSpecifics);
        isAdding := false;
        newKey := "";
        newValue := "";
      }
    }

    /** `handleCancelAdd()`: closes and clears the add form; the map is untouched. */
    method CancelAdd()
      requires Valid()
      modifies this
      ensures Valid()
      ensures !isAdding && newKey == "" && newValue == ""
      ensures editKey == old(editKey) && editValue == old(editValue)
    {
      isAdding := false;
      newKey := "";
      newValue := "";
    }

    /**
     * `handleDelete(key)`: `onChange` receives a copy of the map without `key`, every other
     * attribute keeping its value and its order; the panel's own state is untouched.
     */
    method Delete(specifics: Entries, key: string) returns (changed: Entries)
      ensures Lookup(changed, key).None?
      ensures forall k :: k != key ==> Lookup(changed, k) == Lookup(specifics, k)
      ensures Lookup(specifics, key).None? ==> changed == specifics
      ensures UniqueKeys(specifics) && Lookup(specifics, key).Some? ==> |changed| == |specifics| - 1
      ensures UniqueKeys(specifics) ==>
                forall i :: 0 <= i < |specifics| && specifics[i].0 == key ==> changed == specifics[..i] + specifics[i + 1..]
    {
      var newSpecifics := specifics;
      newSpecifics := Remove(newSpecifics, key);
      if UniqueKeys(specifics) && Lookup(specifics, key).Some? {
        RemovePresentShrinks(specifics, key);
        LookupAbsent(specifics, key);
        var i :| 0 <= i < |specifics| && specifics[i].0 == key;
        RemoveAt(specifics, i);
      } else if UniqueKeys(specifics) {
        LookupAbsent(specifics, key);
      }
      changed := newSpecifics;
    }
  }
}
