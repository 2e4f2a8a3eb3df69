/**
 * The document edit handlers of App.tsx (`handleRestaurantNameChange` to
 * `handleDeleteItem`). Each maps the previous document, or its absence, to the
 * next one with `map`, `filter` and spreads; nothing is changed in place. The
 * identifier of a new category or item (`uuidv4()`) is a parameter.
 */
module MenuEdits {
  import opened Wrappers
  import opened Types

  // ------------------------------------------------------ generic map/filter

  function CategoryId(c: MenuCategory): Id { c.id }

  function ItemId(it: MenuItem): Id { it.id }

  /** `s.map(x => idOf(x) === id ? f(x) : x)`. */
  function Update<T>(s: seq<T>, idOf: T -> Id, id: Id, f: T -> T): (r: seq<T>)
    ensures |r| == |s|
    ensures forall k :: 0 <= k < |s| && idOf(s[k]) == id ==> r[k] == f(s[k])
    ensures forall k :: 0 <= k < |s| && idOf(s[k]) != id ==> r[k] == s[k]
  {
    seq(|s|, k requires 0 <= k < |s| => if idOf(s[k]) == id then f(s[k]) else s[k])
  }

  /** No element of `s` carries `id`. */
  predicate Absent<T>(s: seq<T>, idOf: T -> Id, id: Id) {
    forall k :: 0 <= k < |s| ==> idOf(s[k]) != id
  }

  /** A `map` that matches nothing returns an equal list. */
  lemma UpdateUnknown<T>(s: seq<T>, idOf: T -> Id, id: Id, f: T -> T)
    requires Absent(s, idOf, id)
    ensures Update(s, idOf, id, f) == s
  {
  }

  /** `s.filter(x => idOf(x) !== id)`. */
  function Without<T>(s: seq<T>, idOf: T -> Id, id: Id): (r: seq<T>)
    ensures |r| <= |s|
    ensures forall k :: 0 <= k < |r| ==> r[k] in s && idOf(r[k]) != id
    ensures forall k :: 0 <= k < |s| && idOf(s[k]) != id ==> s[k] in r
  {
    if s == [] then []
    else (if idOf(s[0]) != id then [s[0]] else []) + Without(s[1..], idOf, id)
  }

  /**
   * The filter keeps the survivors in their order: filtering a concatenation
   * is concatenating the filtered parts.
   */
  lemma {:induction false} WithoutConcat<T>(a: seq<T>, b: seq<T>, idOf: T -> Id, id: Id)
    ensures Without(a + b, idOf, id) == Without(a, idOf, id) + Without(b, idOf, id)
  {
    if a == [] {
      assert a + b == b;
    } else {
      assert (a + b)[0] == a[0];
      assert (a + b)[1..] == a[1..] + b;
      WithoutConcat(a[1..], b, idOf, id);
    }
  }

  /** Filtering out an identifier that does not occur returns an equal list. */
  lemma {:induction false} WithoutUnknown<T>(s: seq<T>, idOf: T -> Id, id: Id)
    requires Absent(s, idOf, id)
    ensures Without(s, idOf, id) == s
  {
    if s != [] {
      assert Absent(s[1..], idOf, id);
      WithoutUnknown(s[1..], idOf, id);
    }
  }

  /** The identifiers left after the filter are those of `s` without `id`, in order. */
  lemma {:induction false} WithoutIds<T>(s: seq<T>, idOf: T -> Id, id: Id)
    ensures IdsOf(Without(s, idOf, id), idOf) == Without(IdsOf(s, idOf), Same, id)
  {
    if s != [] {
      WithoutIds(s[1..], idOf, id);
      var ids := IdsOf(s, idOf);
      assert ids[0] == idOf(s[0]) && ids[1..] == IdsOf(s[1..], idOf);
      var head := if idOf(s[0]) != id then [s[0]] else [];
      IdsOfConcat(head, Without(s[1..], idOf, id), idOf);
    }
  }

  function Same(x: Id): Id { x }

  function IdsOf<T>(s: seq<T>, idOf: T -> Id): (r: seq<Id>)
    ensures |r| == |s|
    ensures forall k :: 0 <= k < |s| ==> r[k] == idOf(s[k])
  {
    seq(|s|, k requires 0 <= k < |s| => idOf(s[k]))
  }

  lemma IdsOfConcat<T>(a: seq<T>, b: seq<T>, idOf: T -> Id)
    ensures IdsOf(a + b, idOf) == IdsOf(a, idOf) + IdsOf(b, idOf)
  {
    assert forall k :: 0 <= k < |a| ==> (a + b)[k] == a[k];
    assert forall k :: |a| <= k < |a| + |b| ==> (a + b)[k] == b[k - |a|];
  }

  /** Removing elements from a list without repetitions leaves one without repetitions. */
  lemma {:induction false} WithoutKeepsDistinct(ids: seq<Id>, id: Id)
    requires Distinct(ids)
    ensures Distinct(Without(ids, Same, id))
  {
    if ids != [] {
      DistinctTail(ids);
      WithoutKeepsDistinct(ids[1..], id);
      if ids[0] != id {
        DistinctCons(ids[0], Without(ids[1..], Same, id));
      }
    }
  }

  lemma DistinctTail(ids: seq<Id>)
    requires ids != [] && Distinct(ids)
    ensures Distinct(ids[1..]) && ids[0] !in ids[1..]
  {
    forall i, j | 0 <= i < j < |ids[1..]| ensures ids[1..][i] != ids[1..][j] {
      assert ids[1..][i] == ids[i + 1] && ids[1..][j] == ids[j + 1];
    }
    forall j | 0 <= j < |ids[1..]| ensures ids[1..][j] != ids[0] {
      assert ids[1..][j] == ids[j + 1];
    }
  }

  lemma DistinctCons(x: Id, rest: seq<Id>)
    requires x !in rest && Distinct(rest)
    ensures Distinct([x] + rest)
  {
    var r := [x] + rest;
    forall i, j | 0 <= i < j < |r| ensures r[i] != r[j] {
      assert r[j] == rest[j - 1];
      if i > 0 {
        assert r[i] == rest[i - 1];
      }
    }
  }

  // ---------------------------------------------------------------- patches

  /** `Partial<Omit<MenuCategory, 'id' | 'items'>>`: the fields a category edit may set. */
  datatype CategoryPatch = CategoryPatch(categoryName: Option<string>)

  /** `Partial<Omit<MenuItem, 'id'>>`: the fields an item edit may set. */
  datatype ItemPatch = ItemPatch(name: Option<string>, description: Option<string>, price: Option<string>)

  /** `{ ...cat, ...patch }`. */
  function PatchCategory(c: MenuCategory, p: CategoryPatch): MenuCategory {
    c.(categoryName := p.categoryName.GetOr(c.categoryName))
  }

  /** `{ ...item, ...patch }`; a description set by the patch becomes present. */
  function PatchItem(it: MenuItem, p: ItemPatch): MenuItem {
    MenuItem(it.id, p.name.GetOr(it.name),
             if p.description.Some? then p.description else it.description,
             p.price.GetOr(it.price))
  }

  const NewCategoryName: string := "Nouvelle Catégorie"
  const NewMenuName: string := "Nouveau Menu"
  const NewItemName: string := "Nouvel Article"
  const NewItemPrice: string := "0.00"

  function NewCategory(id: Id): MenuCategory {
    MenuCategory(id, NewCategoryName, [])
  }

  function NewItem(id: Id): MenuItem {
    MenuItem(id, NewItemName, Some(""), NewItemPrice)
  }

  // -------------------------------------------------------------- handlers

  /** `handleRestaurantNameChange`. */
  function Rename(prev: Option<MenuData>, newName: string): (r: Option<MenuData>)
    ensures r.Some? <==> prev.Some?
    ensures r.Some? ==> r.value.restaurantName == newName && r.value.categories == prev.value.categories
  {
    match prev
    case None => None
    case Some(d) => Some(d.(restaurantName := newName))
  }

  /** `handleCategoryChange`. */
  function EditCategory(prev: Option<MenuData>, categoryId: Id, patch: CategoryPatch): (r: Option<MenuData>)
    ensures r.Some? <==> prev.Some?
    ensures r.Some? ==> r.value.restaurantName == prev.value.restaurantName
  {
    match prev
    case None => None
    case Some(d) => Some(d.(categories := Update(d.categories, CategoryId, categoryId, c => PatchCategory(c, patch))))
  }

  /** The items of the category being edited by `handleItemChange`. */
  function EditItemsOf(c: MenuCategory, itemId: Id, patch: ItemPatch): MenuCategory {
    c.(items := Update(c.items, ItemId, itemId, it => PatchItem(it, patch)))
  }

  /** `handleItemChange`. */
  function EditItem(prev: Option<MenuData>, categoryId: Id, itemId: Id, patch: ItemPatch): (r: Option<MenuData>)
    ensures r.Some? <==> prev.Some?
    ensures r.Some? ==> r.value.restaurantName == prev.value.restaurantName
  {
    match prev
    case None => None
    case Some(d) => Some(d.(categories := Update(d.categories, CategoryId, categoryId, c => EditItemsOf(c, itemId, patch))))
  }

  /** `handleAddCategory`, with `newId` the identifier `uuidv4()` returned. */
  function AddCategory(prev: Option<MenuData>, newId: Id): (r: Option<MenuData>)
    ensures r.Some?
    ensures prev.None? ==> r == Some(MenuData(NewMenuName, [NewCategory(newId)]))
    ensures prev.Some? ==> r.value.restaurantName == prev.value.restaurantName
                           && r.value.categories == prev.value.categories + [NewCategory(newId)]
  {
    match prev
    case None => Some(MenuData(NewMenuName, [NewCategory(newId)]))
    case Some(d) => Some(d.(categories := d.categories + [NewCategory(newId)]))
  }

  /** `handleDeleteCategory`. */
  function DeleteCategory(prev: Option<MenuData>, categoryId: Id): (r: Option<MenuData>)
    ensures r.Some? <==> prev.Some?
    ensures r.Some? ==> r.value.restaurantName == prev.value.restaurantName
    ensures r.Some? ==> forall c :: c in r.value.categories <==> c in prev.value.categories && c.id != categoryId
  {
    match prev
    case None => None
    case Some(d) => Some(d.(categories := Without(d.categories, CategoryId, categoryId)))
  }

  /** The category given a new item by `handleAddItem`. */
  function AppendItem(c: MenuCategory, newId: Id): MenuCategory {
    c.(items := c.items + [NewItem(newId)])
  }

  /** `handleAddItem`, with `newId` the identifier `uuidv4()` returned. */
  function AddItem(prev: Option<MenuData>, categoryId: Id, newId: Id): (r: Option<MenuData>)
    ensures r.Some? <==> prev.Some?
    ensures r.Some? ==> r.value.restaurantName == prev.value.restaurantName
  {
    match prev
    case None => None
    case Some(d) => Some(d.(categories := Update(d.categories, CategoryId, categoryId, c => AppendItem(c, newId))))
  }

  /** The category losing an item in `handleDeleteItem`. */
  function RemoveItem(c: MenuCategory, itemId: Id): MenuCategory {
    c.(items := Without(c.items, ItemId, itemId))
  }

  /** `handleDeleteItem`. */
  function DeleteItem(prev: Option<MenuData>, categoryId: Id, itemId: Id): (r: Option<MenuData>)
    ensures r.Some? <==> prev.Some?
    ensures r.Some? ==> r.value.restaurantName == prev.value.restaurantName
  {
    match prev
    case None => None
    case Some(d) => Some(d.(categories := Update(d.categories, CategoryId, categoryId, c => RemoveItem(c, itemId))))
  }

  // ---------------------------------------------------------------- lemmas

  /**
   * A category edit keeps the number and order of the categories, every
   * identifier and every item list; only the name of the matching category
   * changes, and only when the patch sets it.
   */
  lemma EditCategoryFields(d: MenuData, categoryId: Id, patch: CategoryPatch)
    ensures var r := EditCategory(Some(d), categoryId, patch).value.categories;
            && |r| == |d.categories|
            && (forall k :: 0 <= k < |r| ==> r[k].id == d.categories[k].id && r[k].items == d.categories[k].items)
            && (forall k :: 0 <= k < |r| ==>
                  r[k].categoryName == (if d.categories[k].id == categoryId && patch.categoryName.Some?
                                        then patch.categoryName.value else d.categories[k].categoryName))
  {
  }

  /**
   * An item edit keeps every category as it is except the matching one, whose
   * items keep their number, order and identifiers; only the matching item's
   * fields set by the patch change.
   */
  lemma EditItemFields(d: MenuData, categoryId: Id, itemId: Id, patch: ItemPatch)
    ensures var r := EditItem(Some(d), categoryId, itemId, patch).value.categories;
            && |r| == |d.categories|
            && (forall k :: 0 <= k < |r| && d.categories[k].id != categoryId ==> r[k] == d.categories[k])
            && (forall k :: 0 <= k < |r| ==>
                  r[k].id == d.categories[k].id && r[k].categoryName == d.categories[k].categoryName
                  && |r[k].items| == |d.categories[k].items|)
            && (forall k, j :: 0 <= k < |r| && 0 <= j < |r[k].items| ==>
                  var before := d.categories[k].items[j];
                  var after := r[k].items[j];
                  && after.id == before.id
                  && (d.categories[k].id == categoryId && before.id == itemId ==> after == PatchItem(before, patch))
                  && (d.categories[k].id != categoryId || before.id != itemId ==> after == before))
  {
  }

  /** An edit that matches no category, or no item, leaves the document equal to the input. */
  lemma EditUnknownIsNoOp(d: MenuData, categoryId: Id, itemId: Id, cp: CategoryPatch, ip: ItemPatch)
    ensures Absent(d.categories, CategoryId, categoryId) ==>
              EditCategory(Some(d), categoryId, cp) == Some(d)
              && EditItem(Some(d), categoryId, itemId, ip) == Some(d)
              && AddItem(Some(d), categoryId, itemId) == Some(d)
              && DeleteItem(Some(d), categoryId, itemId) == Some(d)
              && DeleteCategory(Some(d), categoryId) == Some(d)
    ensures forall k :: 0 <= k < |d.categories| && d.categories[k].id == categoryId ==>
              Absent(d.categories[k].items, ItemId, itemId) ==>
              EditItemsOf(d.categories[k], itemId, ip) == d.categories[k]
              && RemoveItem(d.categories[k], itemId) == d.categories[k]
  {
    if Absent(d.categories, CategoryId, categoryId) {
      UpdateUnknown(d.categories, CategoryId, categoryId, c => PatchCategory(c, cp));
      UpdateUnknown(d.categories, CategoryId, categoryId, c => EditItemsOf(c, itemId, ip));
      UpdateUnknown(d.categories, CategoryId, categoryId, c => AppendItem(c, itemId));
      UpdateUnknown(d.categories, CategoryId, categoryId, c => RemoveItem(c, itemId));
      WithoutUnknown(d.categories, CategoryId, categoryId);
    }
    forall k | 0 <= k < |d.categories| && d.categories[k].id == categoryId && Absent(d.categories[k].items, ItemId, itemId)
      ensures EditItemsOf(d.categories[k], itemId, ip) == d.categories[k]
      ensures RemoveItem(d.categories[k], itemId) == d.categories[k]
    {
      UpdateUnknown(d.categories[k].items, ItemId, itemId, it => PatchItem(it, ip));
      WithoutUnknown(d.categories[k].items, ItemId, itemId);
    }
  }

  /** Every edit handler leaves an absent document absent, except adding a category. */
  lemma AbsentStaysAbsent(name: string, categoryId: Id, itemId: Id, cp: CategoryPatch, ip: ItemPatch, newId: Id)
    ensures Rename(None, name) == None
    ensures EditCategory(None, categoryId, cp) == None
    ensures EditItem(None, categoryId, itemId, ip) == None
    ensures DeleteCategory(None, categoryId) == None
    ensures AddItem(None, categoryId, newId) == None
    ensures DeleteItem(None, categoryId, itemId) == None
    ensures AddCategory(None, newId) == Some(MenuData("Nouveau Menu", [MenuCategory(newId, "Nouvelle Catégorie", [])]))
  {
  }

  /**
   * Adding an item appends exactly one default item to the end of the matching
   * category; every other category is unchanged.
   */
  lemma AddItemFields(d: MenuData, categoryId: Id, newId: Id)
    ensures var r := AddItem(Some(d), categoryId, newId).value.categories;
            && |r| == |d.categories|
            && (forall k :: 0 <= k < |r| && d.categories[k].id != categoryId ==> r[k] == d.categories[k])
            && (forall k :: 0 <= k < |r| && d.categories[k].id == categoryId ==>
                  r[k].id == categoryId && r[k].categoryName == d.categories[k].categoryName
                  && r[k].items == d.categories[k].items + [MenuItem(newId, "Nouvel Article", Some(""), "0.00")])
  {
  }

  /**
   * Deleting a category removes exactly the categories with that identifier
   * and keeps the others in their order: the result is the filter of the list,
   * and filtering splits over concatenation.
   */
  lemma DeleteCategoryOrder(d: MenuData, categoryId: Id, a: seq<MenuCategory>, b: seq<MenuCategory>)
    requires d.categories == a + b
    ensures DeleteCategory(Some(d), categoryId).value.categories
            == Without(a, CategoryId, categoryId) + Without(b, CategoryId, categoryId)
  {
    WithoutConcat(a, b, CategoryId, categoryId);
  }

  /**
   * Deleting an item touches only the matching category, whose items become
   * exactly the others, in their order.
   */
  lemma DeleteItemFields(d: MenuData, categoryId: Id, itemId: Id)
    ensures var r := DeleteItem(Some(d), categoryId, itemId).value.categories;
            && |r| == |d.categories|
            && (forall k :: 0 <= k < |r| && d.categories[k].id != categoryId ==> r[k] == d.categories[k])
            && (forall k :: 0 <= k < |r| && d.categories[k].id == categoryId ==>
                  r[k].id == categoryId && r[k].categoryName == d.categories[k].categoryName
                  && (forall it :: it in r[k].items <==> it in d.categories[k].items && it.id != itemId))
  {
  }

  /** The identifier invariant survives the edits, and the additions when the new identifier is fresh. */
  lemma EditsKeepUniqueIds(d: MenuData, categoryId: Id, itemId: Id, cp: CategoryPatch, ip: ItemPatch)
    requires UniqueIds(d)
    ensures UniqueIds(EditCategory(Some(d), categoryId, cp).value)
    ensures UniqueIds(EditItem(Some(d), categoryId, itemId, ip).value)
  {
    var r1 := EditCategory(Some(d), categoryId, cp).value;
    assert CategoryIds(r1.categories) == CategoryIds(d.categories);
    forall k | 0 <= k < |r1.categories| ensures Distinct(ItemIds(r1.categories[k].items)) {
      assert ItemIds(r1.categories[k].items) == ItemIds(d.categories[k].items);
    }
    var r2 := EditItem(Some(d), categoryId, itemId, ip).value;
    EditItemFields(d, categoryId, itemId, ip);
    assert CategoryIds(r2.categories) == CategoryIds(d.categories);
    forall k | 0 <= k < |r2.categories| ensures Distinct(ItemIds(r2.categories[k].items)) {
      assert ItemIds(r2.categories[k].items) == ItemIds(d.categories[k].items);
    }
  }

  lemma AddCategoryKeepsUniqueIds(prev: Option<MenuData>, newId: Id)
    requires prev.Some? ==> UniqueIds(prev.value) && newId !in CategoryIds(prev.value.categories)
    ensures UniqueIds(AddCategory(prev, newId).value)
  {
    var r := AddCategory(prev, newId).value;
    if prev.Some? {
      var ids := CategoryIds(prev.value.categories);
      assert CategoryIds(r.categories) == ids + [newId];
      forall k | 0 <= k < |r.categories| ensures Distinct(ItemIds(r.categories[k].items)) {
        if k < |ids| {
          assert r.categories[k] == prev.value.categories[k];
        }
      }
    }
  }

  lemma AddItemKeepsUniqueIds(d: MenuData, categoryId: Id, newId: Id)
    requires UniqueIds(d)
    requires forall k :: 0 <= k < |d.categories| && d.categories[k].id == categoryId ==>
               newId !in ItemIds(d.categories[k].items)
    ensures UniqueIds(AddItem(Some(d), categoryId, newId).value)
  {
    var r := AddItem(Some(d), categoryId, newId).value;
    AddItemFields(d, categoryId, newId);
    assert CategoryIds(r.categories) == CategoryIds(d.categories);
    forall k | 0 <= k < |r.categories| ensures Distinct(ItemIds(r.categories[k].items)) {
      if d.categories[k].id == categoryId {
        var old_ := ItemIds(d.categories[k].items);
        assert ItemIds(r.categories[k].items) == old_ + [newId];
      }
    }
  }

  lemma DeletionsKeepUniqueIds(d: MenuData, categoryId: Id, itemId: Id)
    requires UniqueIds(d)
    ensures UniqueIds(DeleteCategory(Some(d), categoryId).value)
    ensures UniqueIds(DeleteItem(Some(d), categoryId, itemId).value)
  {
    var cats := d.categories;
    var r1 := DeleteCategory(Some(d), categoryId).value;
    WithoutIds(cats, CategoryId, categoryId);
    assert IdsOf(cats, CategoryId) == CategoryIds(cats);
    assert IdsOf(r1.categories, CategoryId) == CategoryIds(r1.categories);
    WithoutKeepsDistinct(CategoryIds(cats), categoryId);
    forall k | 0 <= k < |r1.categories| ensures Distinct(ItemIds(r1.categories[k].items)) {
      var c := r1.categories[k];
      assert c in cats;
      var j :| 0 <= j < |cats| && cats[j] == c;
    }
    var r2 := DeleteItem(Some(d), categoryId, itemId).value;
    forall k | 0 <= k < |r2.categories| ensures Distinct(ItemIds(r2.categories[k].items)) {
      if cats[k].id == categoryId {
        var items := cats[k].items;
        WithoutIds(items, ItemId, itemId);
        assert IdsOf(items, ItemId) == ItemIds(items);
        assert IdsOf(r2.categories[k].items, ItemId) == ItemIds(r2.categories[k].items);
        WithoutKeepsDistinct(ItemIds(items), itemId);
      }
    }
    assert CategoryIds(r2.categories) == CategoryIds(cats);
  }
}
