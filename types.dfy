/**
 * The records of the menu document (extracteur-de-menu-ia/types.ts).
 * Identifiers are plain strings; `description` is optional, as in the source.
 */
module Types {
  import opened Wrappers

  type Id = string

  datatype MenuItem = MenuItem(id: Id, name: string, description: Option<string>, price: string)

  datatype MenuCategory = MenuCategory(id: Id, categoryName: string, items: seq<MenuItem>)

  datatype MenuData = MenuData(restaurantName: string, categories: seq<MenuCategory>)

  /** The colour theme of an image: a dominant colour and an ordered palette. */
  datatype ExtractedColors = ExtractedColors(dominant: string, palette: seq<string>)

  /** The identifiers of a list of items, in order. */
  function ItemIds(items: seq<MenuItem>): (r: seq<Id>)
    ensures |r| == |items|
    ensures forall k :: 0 <= k < |items| ==> r[k] == items[k].id
  {
    seq(|items|, k requires 0 <= k < |items| => items[k].id)
  }

  /** The identifiers of a list of categories, in order. */
  function CategoryIds(cats: seq<MenuCategory>): (r: seq<Id>)
    ensures |r| == |cats|
    ensures forall k :: 0 <= k < |cats| ==> r[k] == cats[k].id
  {
    seq(|cats|, k requires 0 <= k < |cats| => cats[k].id)
  }

  /** No identifier occurs twice in `ids`. */
  predicate Distinct(ids: seq<Id>) {
    forall i, j :: 0 <= i < j < |ids| ==> ids[i] != ids[j]
  }

  /**
   * The identifier invariant of a document: category ids are distinct within the
   * document and item ids are distinct within their category.
   */
  predicate UniqueIds(d: MenuData) {
    && Distinct(CategoryIds(d.categories))
    && forall k :: 0 <= k < |d.categories| ==> Distinct(ItemIds(d.categories[k].items))
  }

  /** Every identifier of a list of categories in document order: each category's, then its items'. */
  function DocumentIds(cats: seq<MenuCategory>): seq<Id> {
    if cats == [] then [] else [cats[0].id] + ItemIds(cats[0].items) + DocumentIds(cats[1..])
  }

  /** An item with its identifier blanked out: what it holds apart from its identity. */
  function ItemContent(it: MenuItem): MenuItem {
    it.(id := "")
  }

  function ItemsContent(items: seq<MenuItem>): seq<MenuItem> {
    seq(|items|, k requires 0 <= k < |items| => ItemContent(items[k]))
  }

  function CategoryContent(c: MenuCategory): MenuCategory {
    MenuCategory("", c.categoryName, ItemsContent(c.items))
  }

  /** A list of categories with every identifier blanked out. */
  function Content(cats: seq<MenuCategory>): seq<MenuCategory> {
    if cats == [] then [] else [CategoryContent(cats[0])] + Content(cats[1..])
  }

  lemma ContentCons(first: MenuCategory, rest: seq<MenuCategory>)
    ensures Content([first] + rest) == [CategoryContent(first)] + Content(rest)
  {
    assert ([first] + rest)[1..] == rest;
  }

  /** Every category identifier and every item identifier occurs in `DocumentIds`. */
  lemma {:induction false} DocumentIdsCover(cats: seq<MenuCategory>)
    ensures forall k :: 0 <= k < |cats| ==> cats[k].id in DocumentIds(cats)
    ensures forall k, j :: 0 <= k < |cats| && 0 <= j < |cats[k].items| ==> cats[k].items[j].id in DocumentIds(cats)
  {
    if cats != [] {
      DocumentIdsCover(cats[1..]);
      var head := [cats[0].id] + ItemIds(cats[0].items);
      assert DocumentIds(cats) == head + DocumentIds(cats[1..]);
      forall k, j | 0 <= k < |cats| && 0 <= j < |cats[k].items|
        ensures cats[k].items[j].id in DocumentIds(cats)
      {
        if k == 0 {
          assert head[1 + j] == cats[k].items[j].id;
        } else {
          assert cats[k] == cats[1..][k - 1];
        }
      }
      forall k | 0 < k < |cats| ensures cats[k].id in DocumentIds(cats) {
        assert cats[k] == cats[1..][k - 1];
      }
    }
  }

  /** A list without repetitions splits into two lists without repetitions that share nothing. */
  lemma DistinctSplit(a: seq<Id>, b: seq<Id>)
    requires Distinct(a + b)
    ensures Distinct(a) && Distinct(b)
    ensures forall x :: x in a ==> x !in b
  {
    forall i, j | 0 <= i < j < |a| ensures a[i] != a[j] {
      assert (a + b)[i] == a[i] && (a + b)[j] == a[j];
    }
    forall i, j | 0 <= i < j < |b| ensures b[i] != b[j] {
      assert (a + b)[|a| + i] == b[i] && (a + b)[|a| + j] == b[j];
    }
    forall i, j | 0 <= i < |a| && 0 <= j < |b| ensures a[i] != b[j] {
      assert (a + b)[i] == a[i] && (a + b)[|a| + j] == b[j];
    }
  }

  /** When all identifiers of a list of categories are distinct, categories and items have distinct ids. */
  lemma {:induction false} DistinctDocumentIdsUnique(cats: seq<MenuCategory>)
    requires Distinct(DocumentIds(cats))
    ensures Distinct(CategoryIds(cats))
    ensures forall k :: 0 <= k < |cats| ==> Distinct(ItemIds(cats[k].items))
  {
    if cats != [] {
      var items := ItemIds(cats[0].items);
      var tail := DocumentIds(cats[1..]);
      assert DocumentIds(cats) == ([cats[0].id] + items) + tail;
      DistinctSplit([cats[0].id] + items, tail);
      DistinctSplit([cats[0].id], items);
      DistinctDocumentIdsUnique(cats[1..]);
      DocumentIdsCover(cats[1..]);
      assert forall k :: 0 < k < |cats| ==> cats[k] == cats[1..][k - 1];
      assert forall k :: 0 < k < |cats| ==> cats[k].id in tail;
      assert Distinct(CategoryIds(cats)) by {
        forall i, j | 0 <= i < j < |cats| ensures cats[i].id != cats[j].id {
          if i > 0 {
            assert CategoryIds(cats[1..])[i - 1] != CategoryIds(cats[1..])[j - 1];
          }
        }
      }
    }
  }

  /** When all identifiers of a document are distinct, it satisfies the identifier invariant. */
  lemma DistinctDocumentIds(d: MenuData)
    requires Distinct(DocumentIds(d.categories))
    ensures UniqueIds(d)
  {
    DistinctDocumentIdsUnique(d.categories);
  }
}
