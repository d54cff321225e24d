/**
 * The filter sidebar of the recipe list: the selected tags and categories
 * are kept as one comma-separated string each, parsed into a list, toggled
 * one entry at a time and written back joined with commas.
 */
module RecipeFilters {
  import opened Wrappers
  import opened Seqs
  import opened Text

  /** The string-valued filters of the recipe list, by name. */
  type Filters = map<string, string>

  /** One `onFilterChange(key, value)` call. */
  datatype Change = Change(key: string, value: string)

  /** The list page's handler: the key takes the new value, nothing else
      changes. */
  function Apply(filters: Filters, changes: seq<Change>): (r: Filters)
    ensures forall c :: c in changes ==> c.key in r
    ensures forall k :: k in r <==> k in filters || exists c :: c in changes && c.key == k
    decreases |changes|
  {
    if changes == [] then filters
    else Apply(filters[changes[0].key := changes[0].value], changes[1..])
  }

  function Lookup(filters: Filters, key: string): Option<string> {
    if key in filters then Some(filters[key]) else None
  }

  /** `filters.x ? filters.x.split(',').map(trim).filter(Boolean) : []`:
      a missing or empty filter selects nothing. */
  function Selected(value: Option<string>): (r: seq<string>)
    ensures forall t :: t in r ==> t != [] && IsTrimmed(t) && ',' !in t
    ensures value.None? || value.value == [] ==> r == []
  {
    if value.None? || value.value == [] then [] else SplitTrimmed(value.value, ',')
  }

  /** A name that survives being written into and parsed back from the
      filter string: not empty, no surrounding white space, no comma. */
  predicate Selectable(t: string) {
    t != [] && IsTrimmed(t) && ',' !in t
  }

  /** The new selection: without every occurrence of `x` if it is selected,
      else with `x` appended. */
  function Toggle(selected: seq<string>, x: string): (r: seq<string>)
    ensures x in selected ==> x !in r && forall y :: y in r <==> y in selected && y != x
    ensures x in selected ==> IsSubsequence(r, selected) && multiset(r) == multiset(selected)[x := 0]
    ensures x !in selected ==> r == selected + [x]
  {
    if x in selected then
      FilterIsSubsequence(selected, t => t != x);
      FilterOutMultiset(selected, x, t => t != x);
      Filter(selected, t => t != x)
    else selected + [x]
  }

  /** toggleTag: report the toggled tag list under "tags". */
  function ToggleTag(filters: Filters, tag: string): (c: Change)
    ensures c.key == "tags"
  {
    Change("tags", Join(Toggle(Selected(Lookup(filters, "tags")), tag), ','))
  }

  /** toggleCategory: the same on "categories". */
  function ToggleCategory(filters: Filters, category: string): (c: Change)
    ensures c.key == "categories"
  {
    Change("categories", Join(Toggle(Selected(Lookup(filters, "categories")), category), ','))
  }

  /** The keys clearFilters resets, in call order. */
  const ClearedKeys: seq<string> := ["query", "minKcal", "maxKcal", "minProtein", "maxProtein",
                                     "minFat", "maxFat", "minCarbs", "maxCarbs", "tags", "categories"]

  /** clearFilters: every cleared key set to the empty string. */
  function ClearFilters(): (cs: seq<Change>)
    ensures |cs| == |ClearedKeys|
    ensures forall i :: 0 <= i < |cs| ==> cs[i] == Change(ClearedKeys[i], "")
  {
    seq(|ClearedKeys|, i requires 0 <= i < |ClearedKeys| => Change(ClearedKeys[i], ""))
  }

  // --------------------------------------------------------------- lemmas

  /** Toggling a name that is not selected, twice, gives the selection back. */
  lemma ToggleTwice(selected: seq<string>, x: string)
    requires x !in selected
    ensures Toggle(Toggle(selected, x), x) == selected
  {
    var p := (t: string) => t != x;
    FilterAppend(selected, [x], p);
    FilterAll(selected, p);
    assert Filter([x], p) == [];
  }

  /** A filter string made of comma-free pieces selects those pieces,
      trimmed, without the empty ones. */
  lemma SelectedOfJoin(pieces: seq<string>)
    requires forall p :: p in pieces ==> ',' !in p
    ensures Selected(Some(Join(pieces, ','))) == Filter(Map(pieces, Trim), NonEmptyPiece)
  {
    var joined := Join(pieces, ',');
    SplitTrimmedJoin(pieces, ',');
    if joined == [] {
      SplitTrimmedEmpty(',');
    } else {
      assert Selected(Some(joined)) == SplitTrimmed(joined, ',');
    }
  }

  /** Writing a selection of selectable names and parsing it back gives
      the same list. */
  lemma {:induction false} SelectedJoin(names: seq<string>)
    requires forall t :: t in names ==> Selectable(t)
    ensures Selected(Some(Join(names, ','))) == names
  {
    SelectedOfJoin(names);
    TrimmedUnchanged(names);
    FilterAll(names, NonEmptyPiece);
  }

  lemma TrimmedUnchanged(names: seq<string>)
    requires forall t :: t in names ==> IsTrimmed(t)
    ensures Map(names, Trim) == names
  {
    forall i | 0 <= i < |names| ensures Map(names, Trim)[i] == names[i] {
      TrimTrimmed(names[i]);
    }
  }

  /** The tag string toggleTag reports parses back to the toggled list,
      when the tag itself is selectable. */
  lemma ToggleTagRoundTrip(filters: Filters, tag: string)
    requires Selectable(tag)
    ensures Selected(Some(ToggleTag(filters, tag).value)) == Toggle(Selected(Lookup(filters, "tags")), tag)
  {
    var toggled := Toggle(Selected(Lookup(filters, "tags")), tag);
    SelectedJoin(toggled);
  }

  /** Toggling the same unselected tag twice restores the tag list. */
  lemma ToggleTagTwice(filters: Filters, tag: string)
    requires Selectable(tag)
    requires tag !in Selected(Lookup(filters, "tags"))
    ensures var once := Apply(filters, [ToggleTag(filters, tag)]);
            Selected(Lookup(Apply(once, [ToggleTag(once, tag)]), "tags")) == Selected(Lookup(filters, "tags"))
  {
    var before := Selected(Lookup(filters, "tags"));
    var first := ToggleTag(filters, tag);
    var once := Apply(filters, [first]);
    ApplyLast(filters, [first], 0);
    ToggleTagRoundTrip(filters, tag);
    assert Selected(Lookup(once, "tags")) == Toggle(before, tag);
    var second := ToggleTag(once, tag);
    ApplyLast(once, [second], 0);
    ToggleTagRoundTrip(once, tag);
    assert Selected(Lookup(Apply(once, [second]), "tags")) == Toggle(Toggle(before, tag), tag);
    ToggleTwice(before, tag);
  }

  /** toggleCategory does on "categories" what toggleTag does on "tags". */
  lemma ToggleCategoryMirrorsTag(filters: Filters, name: string)
    ensures ToggleCategory(filters, name).value
         == ToggleTag(filters["tags" := Lookup(filters, "categories").GetOr([])], name).value
  {
    var f := filters["tags" := Lookup(filters, "categories").GetOr([])];
    assert Selected(Lookup(f, "tags")) == Selected(Lookup(filters, "categories"));
  }

  lemma {:induction false} ApplyUnchanged(filters: Filters, changes: seq<Change>, k: string)
    requires forall c :: c in changes ==> c.key != k
    ensures Lookup(Apply(filters, changes), k) == Lookup(filters, k)
    decreases |changes|
  {
    if changes != [] {
      assert forall c :: c in changes[1..] ==> c in changes;
      ApplyUnchanged(filters[changes[0].key := changes[0].value], changes[1..], k);
    }
  }

  lemma {:induction false} ApplyLast(filters: Filters, changes: seq<Change>, i: nat)
    requires i < |changes|
    requires forall j :: i < j < |changes| ==> changes[j].key != changes[i].key
    ensures Lookup(Apply(filters, changes), changes[i].key) == Some(changes[i].value)
    decreases i
  {
    if i == 0 {
      assert forall c :: c in changes[1..] ==> c.key != changes[0].key by {
        forall c | c in changes[1..] ensures c.key != changes[0].key {
          var j :| 0 <= j < |changes[1..]| && changes[1..][j] == c;
          assert changes[j + 1] == c;
        }
      }
      ApplyUnchanged(filters[changes[0].key := changes[0].value], changes[1..], changes[0].key);
    } else {
      ApplyLast(filters[changes[0].key := changes[0].value], changes[1..], i - 1);
    }
  }

  lemma ClearedKeysDistinct()
    ensures forall i, j :: 0 <= i < j < |ClearedKeys| ==> ClearedKeys[i] != ClearedKeys[j]
  {
  }

  /** Clearing sets each of the eleven cleared keys to the empty string. */
  lemma ClearSets(filters: Filters, k: string)
    requires k in ClearedKeys
    ensures Lookup(Apply(filters, ClearFilters()), k) == Some("")
  {
    ClearedKeysDistinct();
    var i :| 0 <= i < |ClearedKeys| && ClearedKeys[i] == k;
    ApplyLast(filters, ClearFilters(), i);
  }

  /** Clearing leaves every other filter as it was. */
  lemma ClearKeepsOthers(filters: Filters, k: string)
    requires k !in ClearedKeys
    ensures Lookup(Apply(filters, ClearFilters()), k) == Lookup(filters, k)
  {
    ApplyUnchanged(filters, ClearFilters(), k);
  }

  /** After clearing, no tag and no category is selected. */
  lemma ClearDeselects(filters: Filters)
    ensures Selected(Lookup(Apply(filters, ClearFilters()), "tags")) == []
    ensures Selected(Lookup(Apply(filters, ClearFilters()), "categories")) == []
  {
    assert ClearedKeys[9] == "tags" && ClearedKeys[10] == "categories";
    ClearSets(filters, "tags");
    ClearSets(filters, "categories");
  }
}
