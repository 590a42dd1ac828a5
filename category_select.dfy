/**
 * The category picker's list edits. `value` is the list of selected category ids the form
 * owns; every edit builds a new list and hands it to `onChange`.
 */
module CategorySelect {
  import opened Seqs

  /** A loaded category; the picker reads only its id. */
  datatype Category = Category(id: string, name: string, slug: string, color: string)

  /** The categories whose id is selected, in the order they were loaded. */
  function SelectedCategories(categories: seq<Category>, value: seq<string>): (selected: seq<Category>)
    ensures |selected| <= |categories|
    ensures forall i :: 0 <= i < |selected| ==> selected[i].id in value
  {
    Filter((c: Category) => c.id in value, categories)
  }

  /** `value.filter(v => v !== id)`. */
  function RemoveCategory(value: seq<string>, id: string): (rest: seq<string>)
    ensures |rest| <= |value|
    ensures id !in rest
  {
    Filter((v: string) => v != id, value)
  }

  /** Add the id at the end if it is not selected, else drop every occurrence. */
  function ToggleCategory(value: seq<string>, id: string): (toggled: seq<string>)
    ensures id in toggled <==> id !in value
  {
    if id in value then RemoveCategory(value, id) else value + [id]
  }

  // ---------------------------------------------------------------- remove

  /** Removal drops the id, keeps every other occurrence of every other id, and keeps their order. */
  lemma RemoveSpec(value: seq<string>, id: string, x: string)
    ensures id !in RemoveCategory(value, id)
    ensures x != id ==> multiset(RemoveCategory(value, id))[x] == multiset(value)[x]
    ensures |RemoveCategory(value, id)| == |value| - multiset(value)[id]
  {
    FilterHas((v: string) => v != id, value, id);
    FilterMultiset((v: string) => v != id, value, x);
    RemoveLength(value, id);
  }

  lemma {:induction false} RemoveLength(value: seq<string>, id: string)
    ensures |RemoveCategory(value, id)| == |value| - multiset(value)[id]
    decreases |value|
  {
    if value != [] {
      RemoveLength(value[1..], id);
      assert value == [value[0]] + value[1..];
      assert multiset(value) == multiset([value[0]]) + multiset(value[1..]);
    }
  }

  /** Removal works list piece by list piece, so the kept ids stay in their order. */
  lemma RemoveAppend(a: seq<string>, b: seq<string>, id: string)
    ensures RemoveCategory(a + b, id) == RemoveCategory(a, id) + RemoveCategory(b, id)
  {
    FilterAppend((v: string) => v != id, a, b);
  }

  /** Removing an id that is not selected changes nothing. */
  lemma RemoveAbsent(value: seq<string>, id: string)
    requires id !in value
    ensures RemoveCategory(value, id) == value
  {
    FilterAllKept((v: string) => v != id, value);
  }

  /** Removing twice is removing once. */
  lemma RemoveIdempotent(value: seq<string>, id: string)
    ensures RemoveCategory(RemoveCategory(value, id), id) == RemoveCategory(value, id)
  {
    RemoveSpec(value, id, id);
    RemoveAbsent(RemoveCategory(value, id), id);
  }

  // ---------------------------------------------------------------- toggle

  /** Toggling flips whether the id is selected and leaves every other id's selection as it was. */
  lemma ToggleFlips(value: seq<string>, id: string, x: string)
    ensures id in ToggleCategory(value, id) <==> id !in value
    ensures x != id ==> (x in ToggleCategory(value, id) <==> x in value)
  {
    if id in value {
      RemoveSpec(value, id, x);
      FilterHas((v: string) => v != id, value, x);
    }
  }

  /** Toggling an unselected id twice gives back the original list. */
  lemma ToggleTwiceAbsent(value: seq<string>, id: string)
    requires id !in value
    ensures ToggleCategory(ToggleCategory(value, id), id) == value
  {
    RemoveAppend(value, [id], id);
    RemoveAbsent(value, id);
    assert RemoveCategory([id], id) == [];
  }

  /** Toggling a selected id twice leaves one copy of it, moved to the end. */
  lemma ToggleTwicePresent(value: seq<string>, id: string)
    requires id in value
    ensures ToggleCategory(ToggleCategory(value, id), id) == RemoveCategory(value, id) + [id]
  {
    RemoveSpec(value, id, id);
  }

  // ---------------------------------------------------------------- selection

  /** A category is shown as selected exactly when it was loaded and its id is selected. */
  lemma SelectedSpec(categories: seq<Category>, value: seq<string>, c: Category)
    ensures c in SelectedCategories(categories, value) <==> c in categories && c.id in value
  {
    FilterHas((c: Category) => c.id in value, categories, c);
  }

  /** The selection keeps the loaded order. */
  lemma SelectedAppend(a: seq<Category>, b: seq<Category>, value: seq<string>)
    ensures SelectedCategories(a + b, value) == SelectedCategories(a, value) + SelectedCategories(b, value)
  {
    FilterAppend((c: Category) => c.id in value, a, b);
  }

  /** After removing an id, its categories are no longer shown and the others still are. */
  lemma SelectedAfterRemove(categories: seq<Category>, value: seq<string>, id: string, c: Category)
    ensures c in SelectedCategories(categories, RemoveCategory(value, id)) <==>
      c in SelectedCategories(categories, value) && c.id != id
  {
    SelectedSpec(categories, RemoveCategory(value, id), c);
    SelectedSpec(categories, value, c);
    FilterHas((v: string) => v != id, value, c.id);
  }
}
