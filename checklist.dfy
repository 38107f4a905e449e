/** Views of a checklist catalog (Category → SubCategory → Item) that the
    scoring, templates and screens all compute the same way: the items of a
    category in order (`subCategories.flatMap(sc => sc.items)`), the items of
    the whole catalog, and their ids. Every function takes the catalog as a
    parameter; the shipped catalog is in module Constants. */
module Checklist {
  import opened Types
  import opened Lists

  function ItemIdOf(item: ChecklistItem): string {
    item.id
  }

  function CategoryIdOf(c: ChecklistCategory): string {
    c.id
  }

  /** `items.map(i => i.id)`. */
  function ItemIds(items: seq<ChecklistItem>): (ids: seq<string>)
    ensures |ids| == |items|
    ensures forall i :: 0 <= i < |items| ==> ids[i] == items[i].id
  {
    Map(items, ItemIdOf)
  }

  /** The items of a list of subcategories, in order. */
  function SubItems(subs: seq<ChecklistSubCategory>): seq<ChecklistItem> {
    if subs == [] then [] else subs[0].items + SubItems(subs[1..])
  }

  function CategoryItems(c: ChecklistCategory): seq<ChecklistItem> {
    SubItems(c.subCategories)
  }

  /** `category.subCategories.flatMap(sc => sc.items.map(i => i.id))` */
  function CategoryItemIds(c: ChecklistCategory): seq<string> {
    ItemIds(CategoryItems(c))
  }

  /** Every item of the catalog in catalog order. */
  function AllItems(catalog: seq<ChecklistCategory>): seq<ChecklistItem> {
    if catalog == [] then [] else CategoryItems(catalog[0]) + AllItems(catalog[1..])
  }

  function AllItemIds(catalog: seq<ChecklistCategory>): seq<string> {
    ItemIds(AllItems(catalog))
  }

  /** The category ids of a catalog, in catalog order. */
  function CategoryIds(catalog: seq<ChecklistCategory>): (ids: seq<string>)
    ensures |ids| == |catalog|
    ensures forall i :: 0 <= i < |catalog| ==> ids[i] == catalog[i].id
  {
    Map(catalog, CategoryIdOf)
  }

  /** No two positions hold the same string. */
  predicate Distinct(s: seq<string>) {
    forall i, j :: 0 <= i < j < |s| ==> s[i] != s[j]
  }

  lemma {:induction false} ItemIdsAppend(a: seq<ChecklistItem>, b: seq<ChecklistItem>)
    ensures ItemIds(a + b) == ItemIds(a) + ItemIds(b)
  {
  }

  lemma {:induction false} SubItemsAppend(a: seq<ChecklistSubCategory>, b: seq<ChecklistSubCategory>)
    ensures SubItems(a + b) == SubItems(a) + SubItems(b)
    decreases |a|
  {
    if a != [] {
      assert (a + b)[0] == a[0] && (a + b)[1..] == a[1..] + b;
      SubItemsAppend(a[1..], b);
      assert SubItems(a + b) == a[0].items + (SubItems(a[1..]) + SubItems(b));
    } else {
      assert a + b == b;
    }
  }

  lemma {:induction false} AllItemsAppend(a: seq<ChecklistCategory>, b: seq<ChecklistCategory>)
    ensures AllItems(a + b) == AllItems(a) + AllItems(b)
    decreases |a|
  {
    if a != [] {
      assert (a + b)[0] == a[0] && (a + b)[1..] == a[1..] + b;
      AllItemsAppend(a[1..], b);
      assert AllItems(a + b) == CategoryItems(a[0]) + (AllItems(a[1..]) + AllItems(b));
    } else {
      assert a + b == b;
    }
  }

  /** An item of any category is an item of the catalog. */
  lemma {:induction false} CategoryItemsInAllItems(catalog: seq<ChecklistCategory>, k: nat, x: ChecklistItem)
    requires k < |catalog| && x in CategoryItems(catalog[k])
    ensures x in AllItems(catalog)
    decreases k
  {
    if k > 0 {
      CategoryItemsInAllItems(catalog[1..], k - 1, x);
    }
  }

  /** An item of the catalog belongs to some category. */
  lemma {:induction false} AllItemsInSomeCategory(catalog: seq<ChecklistCategory>, x: ChecklistItem)
    requires x in AllItems(catalog)
    ensures exists k :: 0 <= k < |catalog| && x in CategoryItems(catalog[k])
    decreases |catalog|
  {
    if x !in CategoryItems(catalog[0]) {
      AllItemsInSomeCategory(catalog[1..], x);
      var k :| 0 <= k < |catalog[1..]| && x in CategoryItems(catalog[1..][k]);
      assert x in CategoryItems(catalog[k + 1]);
    }
  }

  lemma DistinctAppend(s: seq<string>, t: seq<string>)
    requires Distinct(s) && Distinct(t)
    requires forall x :: x in s ==> x !in t
    ensures Distinct(s + t)
  {
    forall i, j | 0 <= i < j < |s + t|
      ensures (s + t)[i] != (s + t)[j]
    {
      if j >= |s| && i < |s| {
        assert s[i] in s && t[j - |s|] in t;
      }
    }
  }
}
