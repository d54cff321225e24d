/**
 * The shopping list of a meal plan: every ingredient of every planned
 * recipe, scaled by the entry's servings and merged by a key made of the
 * normalised name and unit.
 */
module ShoppingList {
  import opened Wrappers
  import opened Seqs
  import opened Text
  import opened JsMath

  /** An ingredient quantity as stored: a number, or something else that
      `Number(...)` turns into a number or NaN (None). */
  datatype Quantity = Number(x: real) | NonNumber(converted: Option<real>)

  datatype Ingredient = Ingredient(name: string, quantity: Quantity, unit: string)

  /** A meal plan entry with its recipe's ingredients, if the recipe still
      exists, and its servings count. */
  datatype PlanEntry = PlanEntry(recipe: Option<seq<Ingredient>>, servings: real)

  /** What the map holds per key. */
  datatype Aggregated = Aggregated(name: string, unit: string, totalQuantity: real)

  /** One line of the shopping list. */
  datatype ListItem = ListItem(name: string, unit: string, totalQuantity: int)

  /** The merge key: name and unit, each lower-cased and trimmed, joined by
      an underscore. */
  function Key(name: string, unit: string): string {
    Trim(Lower(name)) + "_" + Trim(Lower(unit))
  }

  /** A number is taken as it is; anything else becomes `Number(q) || 0`,
      so NaN (and 0) give 0. */
  function QuantityValue(q: Quantity): real {
    match q
    case Number(x) => x
    case NonNumber(converted) => converted.GetOr(0.0)
  }

  // ------------------------------------------------------- specification

  /** What one ingredient line of one entry adds to the list. */
  datatype Contribution = Contribution(key: string, name: string, unit: string, amount: real)

  /** The quantity of one ingredient line for the entry's servings. */
  function Scaled(q: Quantity, servings: real): real {
    QuantityValue(q) * servings
  }

  function ContributionOf(ing: Ingredient, servings: real): Contribution {
    Contribution(Key(ing.name, ing.unit), ing.name, ing.unit, Scaled(ing.quantity, servings))
  }

  /** An entry without a recipe adds nothing. */
  function EntryContributions(e: PlanEntry): (cs: seq<Contribution>)
    ensures e.recipe.None? ==> cs == []
    ensures e.recipe.Some? ==> |cs| == |e.recipe.value|
  {
    if e.recipe.None? then [] else Map(e.recipe.value, (ing: Ingredient) => ContributionOf(ing, e.servings))
  }

  /** The contributions of all entries, in entry order. */
  function AllContributions(entries: seq<PlanEntry>): seq<Contribution> {
    if entries == [] then []
    else AllContributions(entries[..|entries| - 1]) + EntryContributions(entries[|entries| - 1])
  }

  predicate HasKey(cs: seq<Contribution>, k: string) {
    exists i :: 0 <= i < |cs| && cs[i].key == k
  }

  /** The position of the first contribution with key k. */
  function FirstIndex(cs: seq<Contribution>, k: string): (i: nat)
    requires HasKey(cs, k)
    ensures i < |cs| && cs[i].key == k
    ensures forall j :: 0 <= j < i ==> cs[j].key != k
  {
    if cs[0].key == k then 0
    else
      assert HasKey(cs[1..], k) by {
        var i :| 0 <= i < |cs| && cs[i].key == k;
        assert cs[1..][i - 1].key == k;
      }
      1 + FirstIndex(cs[1..], k)
  }

  /** The sum of the amounts with key k. */
  function Total(cs: seq<Contribution>, k: string): real {
    if cs == [] then 0.0
    else (if cs[0].key == k then cs[0].amount else 0.0) + Total(cs[1..], k)
  }

  /** The map and its keys in insertion order, as the loop leaves them. */
  datatype Table = Table(keys: seq<string>, items: map<string, Aggregated>)

  /** One step of the loop: a new key is inserted at the end with the
      contribution's name and unit; a known key only grows its total. */
  function Add(t: Table, c: Contribution): Table {
    if c.key in t.items then
      Table(t.keys, t.items[c.key := t.items[c.key].(totalQuantity := t.items[c.key].totalQuantity + c.amount)])
    else
      Table(t.keys + [c.key], t.items[c.key := Aggregated(c.name, c.unit, c.amount)])
  }

  function Aggregate(cs: seq<Contribution>): Table {
    if cs == [] then Table([], map[]) else Add(Aggregate(cs[..|cs| - 1]), cs[|cs| - 1])
  }

  /** What the table says about the contributions: one key per distinct
      key, in order of first occurrence, the first occurrence's name and
      unit, and the sum of all amounts. */
  ghost predicate Describes(t: Table, cs: seq<Contribution>) {
    && (forall k :: k in t.items <==> HasKey(cs, k))
    && (forall k :: k in t.keys <==> k in t.items)
    && NoDuplicates(t.keys)
    && (forall k :: k in t.items ==> t.items[k].totalQuantity == Total(cs, k))
    && (forall k :: k in t.items ==>
          t.items[k].name == cs[FirstIndex(cs, k)].name && t.items[k].unit == cs[FirstIndex(cs, k)].unit)
    && (forall i, j :: 0 <= i < j < |t.keys| ==> FirstIndex(cs, t.keys[i]) < FirstIndex(cs, t.keys[j]))
  }

  lemma {:induction false} TotalSnoc(cs: seq<Contribution>, c: Contribution, k: string)
    ensures Total(cs + [c], k) == Total(cs, k) + (if c.key == k then c.amount else 0.0)
  {
    if cs != [] {
      assert (cs + [c])[1..] == cs[1..] + [c];
      TotalSnoc(cs[1..], c, k);
    }
  }

  lemma {:induction false} FirstIndexSnoc(cs: seq<Contribution>, c: Contribution, k: string)
    requires HasKey(cs, k)
    ensures HasKey(cs + [c], k) && FirstIndex(cs + [c], k) == FirstIndex(cs, k)
  {
    assert (cs + [c])[FirstIndex(cs, k)].key == k;
    if cs[0].key != k {
      assert (cs + [c])[1..] == cs[1..] + [c];
      assert HasKey(cs[1..], k) by {
        var i := FirstIndex(cs, k);
        assert cs[1..][i - 1].key == k;
      }
      FirstIndexSnoc(cs[1..], c, k);
    }
  }

  /** A key met for the first time has the new position as first index. */
  lemma NewKeyFirstIndex(cs: seq<Contribution>, c: Contribution)
    requires !HasKey(cs, c.key)
    ensures HasKey(cs + [c], c.key) && FirstIndex(cs + [c], c.key) == |cs|
  {
    assert (cs + [c])[|cs|].key == c.key;
    assert forall j :: 0 <= j < |cs| ==> (cs + [c])[j].key != c.key;
  }

  /** A key that never occurs totals nothing. */
  lemma {:induction false} TotalAbsent(cs: seq<Contribution>, k: string)
    requires !HasKey(cs, k)
    ensures Total(cs, k) == 0.0
  {
    if cs != [] {
      assert forall i :: 0 <= i < |cs[1..]| ==> cs[1..][i] == cs[i + 1];
      TotalAbsent(cs[1..], k);
    }
  }

  lemma HasKeySnoc(cs: seq<Contribution>, c: Contribution, k: string)
    ensures HasKey(cs + [c], k) <==> HasKey(cs, k) || c.key == k
  {
    if HasKey(cs, k) {
      var i :| 0 <= i < |cs| && cs[i].key == k;
      assert (cs + [c])[i].key == k;
    }
    if c.key == k {
      assert (cs + [c])[|cs|].key == k;
    }
    if HasKey(cs + [c], k) && c.key != k {
      var i :| 0 <= i < |cs + [c]| && (cs + [c])[i].key == k;
      assert cs[i].key == k;
    }
  }

  /** The fold builds a table that describes its contributions. */
  lemma {:induction false} AggregateDescribes(cs: seq<Contribution>)
    ensures Describes(Aggregate(cs), cs)
  {
    if cs != [] {
      var p, c := cs[..|cs| - 1], cs[|cs| - 1];
      assert cs == p + [c];
      AggregateDescribes(p);
      AddDescribes(Aggregate(p), p, c);
    }
  }

  /** One loop step keeps the table describing what has been read. */
  lemma AddDescribes(t: Table, cs: seq<Contribution>, c: Contribution)
    requires Describes(t, cs)
    ensures Describes(Add(t, c), cs + [c])
  {
    AddKeys(t, cs, c);
    AddTotals(t, cs, c);
    AddFirst(t, cs, c);
    AddOrder(t, cs, c);
  }

  lemma AddKeys(t: Table, cs: seq<Contribution>, c: Contribution)
    requires Describes(t, cs)
    ensures var t' := Add(t, c);
            && (forall k :: k in t'.items <==> HasKey(cs + [c], k))
            && (forall k :: k in t'.keys <==> k in t'.items)
            && NoDuplicates(t'.keys)
  {
    forall k ensures HasKey(cs + [c], k) <==> HasKey(cs, k) || c.key == k {
      HasKeySnoc(cs, c, k);
    }
    if c.key !in t.items {
      NoDuplicatesAppend(t.keys, [c.key]);
    }
  }

  lemma AddTotals(t: Table, cs: seq<Contribution>, c: Contribution)
    requires Describes(t, cs)
    ensures var t' := Add(t, c);
            forall k :: k in t'.items ==> t'.items[k].totalQuantity == Total(cs + [c], k)
  {
    forall k ensures Total(cs + [c], k) == Total(cs, k) + (if c.key == k then c.amount else 0.0) {
      TotalSnoc(cs, c, k);
    }
    if c.key !in t.items {
      TotalAbsent(cs, c.key);
    }
  }

  lemma AddFirst(t: Table, cs: seq<Contribution>, c: Contribution)
    requires Describes(t, cs)
    ensures var t', cs' := Add(t, c), cs + [c];
            (forall k :: k in t'.items ==> HasKey(cs', k)) &&
            forall k :: k in t'.items ==>
              t'.items[k].name == cs'[FirstIndex(cs', k)].name && t'.items[k].unit == cs'[FirstIndex(cs', k)].unit
  {
    var t', cs' := Add(t, c), cs + [c];
    forall k | k in t'.items
      ensures HasKey(cs', k)
      ensures t'.items[k].name == cs'[FirstIndex(cs', k)].name && t'.items[k].unit == cs'[FirstIndex(cs', k)].unit
    {
      if k in t.items {
        FirstIndexSnoc(cs, c, k);
      } else {
        NewKeyFirstIndex(cs, c);
      }
    }
  }

  lemma AddOrder(t: Table, cs: seq<Contribution>, c: Contribution)
    requires Describes(t, cs)
    ensures var t', cs' := Add(t, c), cs + [c];
            (forall k :: k in t'.keys ==> HasKey(cs', k)) &&
            forall i, j :: 0 <= i < j < |t'.keys| ==> FirstIndex(cs', t'.keys[i]) < FirstIndex(cs', t'.keys[j])
  {
    var t', cs' := Add(t, c), cs + [c];
    forall k | k in t'.keys ensures HasKey(cs', k) {
      HasKeySnoc(cs, c, k);
    }
    forall i, j | 0 <= i < j < |t'.keys|
      ensures FirstIndex(cs', t'.keys[i]) < FirstIndex(cs', t'.keys[j])
    {
      assert t'.keys[i] == t.keys[i];
      FirstIndexSnoc(cs, c, t.keys[i]);
      if j < |t.keys| {
        assert t'.keys[j] == t.keys[j];
        FirstIndexSnoc(cs, c, t.keys[j]);
      } else {
        NewKeyFirstIndex(cs, c);
      }
    }
  }


  lemma AggregateSnoc(cs: seq<Contribution>, c: Contribution)
    ensures Aggregate(cs + [c]) == Add(Aggregate(cs), c)
  {
    assert (cs + [c])[..|cs|] == cs;
  }

  lemma AllContributionsSnoc(entries: seq<PlanEntry>, i: nat)
    requires i < |entries|
    ensures AllContributions(entries[..i + 1]) == AllContributions(entries[..i]) + EntryContributions(entries[i])
  {
    assert entries[..i + 1][..i] == entries[..i];
  }

  /** The items in key order, each total rounded once. */
  function Listing(t: Table): (list: seq<ListItem>)
    requires forall k :: k in t.keys ==> k in t.items
    ensures |list| == |t.keys|
    ensures forall n :: 0 <= n < |list| ==>
              list[n] == ListItem(t.items[t.keys[n]].name, t.items[t.keys[n]].unit, Round(t.items[t.keys[n]].totalQuantity))
  {
    seq(|t.keys|, n requires 0 <= n < |t.keys| =>
      ListItem(t.items[t.keys[n]].name, t.items[t.keys[n]].unit, Round(t.items[t.keys[n]].totalQuantity)))
  }

  /** The shopping list of some contributions: one item per distinct key,
      in order of first occurrence, named after the first occurrence, with
      the rounded sum of all amounts under that key. */
  ghost predicate ListOf(list: seq<ListItem>, keys: seq<string>, cs: seq<Contribution>) {
    && |list| == |keys|
    && NoDuplicates(keys)
    && (forall k :: k in keys <==> HasKey(cs, k))
    && (forall i, j :: 0 <= i < j < |keys| ==> FirstIndex(cs, keys[i]) < FirstIndex(cs, keys[j]))
    && (forall i :: 0 <= i < |list| ==>
          && list[i].name == cs[FirstIndex(cs, keys[i])].name
          && list[i].unit == cs[FirstIndex(cs, keys[i])].unit
          && list[i].totalQuantity == Round(Total(cs, keys[i])))
  }

  /** Listing the folded table gives the shopping list of the contributions. */
  lemma ListingIsListOf(cs: seq<Contribution>)
    ensures var t := Aggregate(cs);
            (forall k :: k in t.keys ==> k in t.items) && ListOf(Listing(t), t.keys, cs)
  {
    AggregateDescribes(cs);
  }

  /** One ingredient line: create the item under its key with the line's
      name and unit, or add the amount to the item already there. */
  method AddItem(keys: seq<string>, items: map<string, Aggregated>, key: string, name: string, unit: string, totalQuantity: real)
    returns (keys': seq<string>, items': map<string, Aggregated>)
    ensures Table(keys', items') == Add(Table(keys, items), Contribution(key, name, unit, totalQuantity))
  {
    if key in items {
      items' := items[key := items[key].(totalQuantity := items[key].totalQuantity + totalQuantity)];
      keys' := keys;
    } else {
      items' := items[key := Aggregated(name, unit, totalQuantity)];
      keys' := keys + [key];
    }
  }

  /** The inner loop of getShoppingList: every ingredient line of one
      entry with a recipe, in order. */
  method AddEntry(keys: seq<string>, items: map<string, Aggregated>, entry: PlanEntry, ghost done: seq<Contribution>)
    returns (keys': seq<string>, items': map<string, Aggregated>)
    requires entry.recipe.Some?
    requires Table(keys, items) == Aggregate(done)
    ensures Table(keys', items') == Aggregate(done + EntryContributions(entry))
  {
    keys', items' := keys, items;
    var ingredients := entry.recipe.value;
    ghost var added := EntryContributions(entry);
    var j := 0;
    assert done + added[..0] == done;
    while j < |ingredients|
      invariant 0 <= j <= |ingredients|
      invariant Table(keys', items') == Aggregate(done + added[..j])
    {
      ghost var read := done + added[..j];
      PrefixSnoc(done, added, j);
      AggregateSnoc(read, added[j]);
      var ing := ingredients[j];
      var key := Key(ing.name, ing.unit);
      var totalQuantity := Scaled(ing.quantity, entry.servings);
      assert added[j] == Contribution(key, ing.name, ing.unit, totalQuantity);
      keys', items' := AddItem(keys', items', key, ing.name, ing.unit, totalQuantity);
      j := j + 1;
    }
    assert added[..j] == added;
  }

  /** getShoppingList: for each entry with a recipe, for each ingredient,
      add quantity × servings under its key, creating the item on first
      sight; then list the items in insertion order, each total rounded
      once. */
  method GetShoppingList(entries: seq<PlanEntry>) returns (list: seq<ListItem>)
    ensures ListOf(list, Aggregate(AllContributions(entries)).keys, AllContributions(entries))
  {
    var items: map<string, Aggregated> := map[];
    var keys: seq<string> := [];
    var i := 0;
    while i < |entries|
      invariant 0 <= i <= |entries|
      invariant Table(keys, items) == Aggregate(AllContributions(entries[..i]))
    {
      AllContributionsSnoc(entries, i);
      if entries[i].recipe.Some? {
        keys, items := AddEntry(keys, items, entries[i], AllContributions(entries[..i]));
      } else {
        assert AllContributions(entries[..i]) + EntryContributions(entries[i]) == AllContributions(entries[..i]);
      }
      i := i + 1;
    }
    assert entries[..i] == entries;
    ListingIsListOf(AllContributions(entries));
    list := Listing(Table(keys, items));
  }

  // ------------------------------------------------------------ examples

  /** Lower-case letters and underscores only. */
  predicate Plain(s: string) {
    forall i :: 0 <= i < |s| ==> 'a' <= s[i] <= 'z' || s[i] == '_'
  }

  /** Names and units that are already lower-case and unspaced are used
      as they are. */
  lemma PlainKey(name: string, unit: string)
    requires Plain(name) && Plain(unit)
    ensures Key(name, unit) == name + "_" + unit
  {
    assert Lower(name) == name;
    assert Lower(unit) == unit;
    NoSpaceIsTrimmed(name);
    NoSpaceIsTrimmed(unit);
    TrimTrimmed(name);
    TrimTrimmed(unit);
  }

  /** The key joins name and unit with an underscore, so different names
      and units can share a key: "salt_fine" in "g" and "salt" in "fine_g"
      are merged into one item. */
  lemma KeysCollide(a: string, b: string, c: string)
    requires Plain(a) && Plain(b) && Plain(c)
    ensures Key(a + "_" + b, c) == Key(a, b + "_" + c)
  {
    assert a + "_" + b + "_" + c == a + "_" + (b + "_" + c);
    assert Plain(a + "_" + b);
    assert Plain(b + "_" + c);
    PlainKey(a + "_" + b, c);
    PlainKey(a, b + "_" + c);
  }

  /** Rounding is applied to the sum, not to each contribution: two
      contributions of 0.4 make one item of 1, where rounding each would
      give 0. */
  lemma RoundedOnce()
    ensures var cs := [Contribution("k", "n", "u", 0.4), Contribution("k", "n", "u", 0.4)];
            Round(Total(cs, "k")) == 1 && Round(0.4) + Round(0.4) == 0
  {
    var cs := [Contribution("k", "n", "u", 0.4), Contribution("k", "n", "u", 0.4)];
    assert cs[1..][1..] == [];
  }

  /** Entries without a recipe add nothing, wherever they are. */
  lemma {:induction false} UnplannedEntriesIgnored(entries: seq<PlanEntry>, e: PlanEntry)
    requires e.recipe.None?
    ensures AllContributions(entries + [e]) == AllContributions(entries)
  {
    assert (entries + [e])[..|entries|] == entries;
  }
}
