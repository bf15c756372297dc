/**
 * The admin-managed answer catalog (regions, varieties, processes, brewing
 * methods). Catalog documents are kept as Firestore field maps because
 * `UpdateCatalogItem` forwards client-supplied JSON fields into them; reading
 * one back decodes it into a `CatalogItem` the way `DataTo` does, and a field
 * of the wrong type makes the handler answer 500.
 */
module Catalog {
  import opened Wrappers
  import opened Json
  import opened Models
  import opened Firestore
  import opened Sorting
  import opened GoMaps
  import Paging

  const Categories: set<string> := {"region", "variety", "process", "brewing_method"}

  /** The only fields `UpdateCatalogItem` lets through. */
  const UpdatableFields: set<string> := {"label", "value", "is_active", "display_order"}

  /** `validCategories[c]`: a category outside the table reads as false. */
  predicate ValidCategory(c: string) {
    c in Categories
  }

  /** The four categories are exactly the valid ones. */
  lemma ValidCategories(c: string)
    ensures ValidCategory(c) <==> c == "region" || c == "variety" || c == "process" || c == "brewing_method"
  {
  }

  // ---------------------------------------------------------------------
  // Documents and decoding
  // ---------------------------------------------------------------------

  /** `DataTo` for one field: missing or null gives the zero value, another type fails. */
  function StringField(f: Fields, k: string): Option<string> {
    if k !in f then Some("")
    else match f[k]
      case JNull => Some("")
      case JStr(s) => Some(s)
      case _ => None
  }

  function BoolField(f: Fields, k: string): Option<bool> {
    if k !in f then Some(false)
    else match f[k]
      case JNull => Some(false)
      case JBool(b) => Some(b)
      case _ => None
  }

  function IntField(f: Fields, k: string): Option<int> {
    if k !in f then Some(0)
    else match f[k]
      case JNull => Some(0)
      case JNum(n) => Some(n)
      case _ => None
  }

  function TimeField(f: Fields, k: string): Option<int> {
    if k !in f then Some(0)
    else match f[k]
      case JNull => Some(0)
      case JTime(t) => Some(t)
      case _ => None
  }

  /** How `Doc(item.ID).Set(ctx, item)` lays a catalog item out in Firestore. */
  function ItemFields(i: CatalogItem): Fields {
    map["id" := JStr(i.ID), "category" := JStr(i.Category), "value" := JStr(i.Value),
        "label" := JStr(i.Label), "is_active" := JBool(i.IsActive),
        "display_order" := JNum(i.DisplayOrder), "created_at" := JTime(i.CreatedAt)]
  }

  /** `doc.DataTo(&item)`: None when some field has the wrong type. */
  function DecodeItem(f: Fields): (r: Option<CatalogItem>)
    ensures r.Some? ==> StringField(f, "category") == Some(r.value.Category)
    ensures r.Some? ==> BoolField(f, "is_active") == Some(r.value.IsActive)
  {
    var id := StringField(f, "id");
    var category := StringField(f, "category");
    var value := StringField(f, "value");
    var lbl := StringField(f, "label");
    var active := BoolField(f, "is_active");
    var order := IntField(f, "display_order");
    var created := TimeField(f, "created_at");
    if id.Some? && category.Some? && value.Some? && lbl.Some? && active.Some? && order.Some? && created.Some?
    then Some(CatalogItem(id.value, category.value, value.value, lbl.value, active.value, order.value, created.value))
    else None
  }

  /** A stored item reads back as itself. */
  lemma DecodeItemFields(i: CatalogItem)
    ensures DecodeItem(ItemFields(i)) == Some(i)
  {
    var f := ItemFields(i);
    assert f["id"] == JStr(i.ID);
    assert f["category"] == JStr(i.Category);
    assert f["value"] == JStr(i.Value);
    assert f["label"] == JStr(i.Label);
    assert f["is_active"] == JBool(i.IsActive);
    assert f["display_order"] == JNum(i.DisplayOrder);
    assert f["created_at"] == JTime(i.CreatedAt);
  }

  // ---------------------------------------------------------------------
  // Queries
  // ---------------------------------------------------------------------

  /** The two `Where` filters the handlers put on their catalog queries. */
  datatype Filter = ActiveOnly | ActiveIn(category: string)

  predicate Keeps(flt: Filter, f: Fields) {
    && "is_active" in f && f["is_active"] == JBool(true)
    && (flt.ActiveIn? ==> "category" in f && f["category"] == JStr(flt.category))
  }

  /** The query's documents decoded in order; None when one of them fails to decode. */
  function Collect(docs: seq<Fields>, flt: Filter): (r: Option<seq<CatalogItem>>)
    ensures r.Some? ==> |r.value| <= |docs|
  {
    if docs == [] then Some([])
    else
      var last := docs[|docs| - 1];
      match Collect(docs[..|docs| - 1], flt)
      case None => None
      case Some(items) =>
        if !Keeps(flt, last) then Some(items)
        else match DecodeItem(last)
          case None => None
          case Some(x) => Some(items + [x])
  }

  /** The listing fails exactly when some selected document fails to decode. */
  lemma {:induction false} CollectFails(docs: seq<Fields>, flt: Filter)
    ensures Collect(docs, flt).None? <==> exists i :: 0 <= i < |docs| && Keeps(flt, docs[i]) && DecodeItem(docs[i]).None?
  {
    if docs != [] {
      var front := docs[..|docs| - 1];
      CollectFails(front, flt);
      assert forall i :: 0 <= i < |front| ==> front[i] == docs[i];
    }
  }

  /** A successful listing holds exactly the decoded selected documents. */
  lemma {:induction false} CollectMembers(docs: seq<Fields>, flt: Filter, x: CatalogItem)
    requires Collect(docs, flt).Some?
    ensures x in Collect(docs, flt).value <==>
            exists i :: 0 <= i < |docs| && Keeps(flt, docs[i]) && DecodeItem(docs[i]) == Some(x)
  {
    if docs != [] {
      var front := docs[..|docs| - 1];
      CollectMembers(front, flt, x);
      assert forall i :: 0 <= i < |front| ==> front[i] == docs[i];
    }
  }

  /** Every item a category listing returns is active and in that category. */
  lemma CollectInCategory(docs: seq<Fields>, category: string, x: CatalogItem)
    requires Collect(docs, ActiveIn(category)).Some?
    requires x in Collect(docs, ActiveIn(category)).value
    ensures x.Category == category && x.IsActive
  {
    CollectMembers(docs, ActiveIn(category), x);
  }

  /** A failed decode stays a failure whatever documents follow. */
  lemma {:induction false} CollectFailureSticks(docs: seq<Fields>, n: nat, flt: Filter)
    requires n <= |docs| && Collect(docs[..n], flt).None?
    ensures Collect(docs, flt).None?
    decreases |docs| - n
  {
    if n < |docs| {
      assert docs[..n + 1][..n] == docs[..n];
      CollectFailureSticks(docs, n + 1, flt);
    } else {
      assert docs[..n] == docs;
    }
  }

  /** Run the query and decode every document, stopping at the first failure. */
  method FetchItems(catalog: Collection<Fields>, flt: Filter) returns (ok: bool, items: seq<CatalogItem>)
    ensures ok <==> Collect(Values(catalog), flt).Some?
    ensures ok ==> items == Collect(Values(catalog), flt).value
    ensures !ok ==> items == []
  {
    var docs := Values(catalog);
    items := [];
    var i := 0;
    while i < |docs|
      invariant 0 <= i <= |docs|
      invariant Collect(docs[..i], flt) == Some(items)
    {
      assert docs[..i + 1][..i] == docs[..i];
      var doc := docs[i];
      if Keeps(flt, doc) {
        var decoded := DecodeItem(doc);
        if decoded.None? {
          CollectFailureSticks(docs, i + 1, flt);
          return false, [];
        }
        items := items + [decoded.value];
      }
      i := i + 1;
    }
    assert docs[..i] == docs;
    ok := true;
  }

  function ByDisplayOrder(x: CatalogItem): Key {
    Key(x.DisplayOrder, 0.0)
  }

  /**
   * `GetCatalogByCategory`: 400 for a category outside the table, 500 when a
   * selected document does not decode, otherwise the active items of that
   * category sorted by display order.
   */
  method GetCatalogByCategory(category: string, catalog: Collection<Fields>) returns (status: int, items: seq<CatalogItem>)
    ensures !ValidCategory(category) ==> status == StatusBadRequest && items == []
    ensures ValidCategory(category) && Collect(Values(catalog), ActiveIn(category)).None? ==>
              status == StatusInternalServerError && items == []
    ensures ValidCategory(category) && Collect(Values(catalog), ActiveIn(category)).Some? ==>
              && status == StatusOK
              && multiset(items) == multiset(Collect(Values(catalog), ActiveIn(category)).value)
              && SortedBy(items, ByDisplayOrder)
    ensures status == StatusOK ==> forall x :: x in items ==> x.Category == category && x.IsActive
  {
    if !ValidCategory(category) {
      return StatusBadRequest, [];
    }
    var ok, fetched := FetchItems(catalog, ActiveIn(category));
    if !ok {
      return StatusInternalServerError, [];
    }
    items := SortByKey(fetched, ByDisplayOrder);
    status := StatusOK;
    forall x | x in items ensures x.Category == category && x.IsActive {
      PermutationMembers(items, fetched);
      CollectInCategory(Values(catalog), category, x);
    }
  }

  // ---------------------------------------------------------------------
  // Grouping
  // ---------------------------------------------------------------------

  /** The items of one category, in listing order. */
  function OfCategory(items: seq<CatalogItem>, c: string): (r: seq<CatalogItem>)
    ensures |r| <= |items|
  {
    if items == [] then []
    else
      var last := items[|items| - 1];
      OfCategory(items[..|items| - 1], c) + (if last.Category == c then [last] else [])
  }

  /** A group holds exactly the listed items of its category. */
  lemma {:induction false} OfCategoryMembers(items: seq<CatalogItem>, c: string, x: CatalogItem)
    ensures x in OfCategory(items, c) <==> x in items && x.Category == c
  {
    if items != [] {
      var front := items[..|items| - 1];
      OfCategoryMembers(front, c, x);
      assert items == front + [items[|items| - 1]];
    }
  }

  /** `catalogMap[item.Category] = append(catalogMap[item.Category], item)` over the listing. */
  method GroupByCategory(items: seq<CatalogItem>) returns (groups: map<string, seq<CatalogItem>>)
    ensures forall c :: c in groups <==> OfCategory(items, c) != []
    ensures forall c :: c in groups ==> groups[c] == OfCategory(items, c)
  {
    groups := map[];
    for i := 0 to |items|
      invariant forall c :: c in groups <==> OfCategory(items[..i], c) != []
      invariant forall c :: c in groups ==> groups[c] == OfCategory(items[..i], c)
    {
      assert items[..i + 1][..i] == items[..i];
      var x := items[i];
      var group := if x.Category in groups then groups[x.Category] else [];
      groups := groups[x.Category := group + [x]];
    }
    assert items[..|items|] == items;
  }

  /** Sort every group by display order, visiting the keys in map order. */
  method SortGroups(groups: map<string, seq<CatalogItem>>) returns (sorted: map<string, seq<CatalogItem>>)
    ensures sorted.Keys == groups.Keys
    ensures forall c :: c in sorted ==> multiset(sorted[c]) == multiset(groups[c]) && SortedBy(sorted[c], ByDisplayOrder)
  {
    var keys := KeysInSomeOrder(groups);
    sorted := groups;
    for i := 0 to |keys|
      invariant sorted.Keys == groups.Keys
      invariant forall c :: c in sorted ==> multiset(sorted[c]) == multiset(groups[c])
      invariant forall j :: 0 <= j < i ==> SortedBy(sorted[keys[j]], ByDisplayOrder)
    {
      var c := keys[i];
      sorted := sorted[c := SortByKey(sorted[c], ByDisplayOrder)];
    }
    forall c | c in sorted ensures SortedBy(sorted[c], ByDisplayOrder) {
      var j :| 0 <= j < |keys| && keys[j] == c;
    }
  }

  /**
   * `GetAllCatalog`: the active items grouped under their category, each
   * group sorted by display order; 500 when a document does not decode.
   */
  method GetAllCatalog(catalog: Collection<Fields>) returns (status: int, groups: map<string, seq<CatalogItem>>)
    ensures Collect(Values(catalog), ActiveOnly).None? ==> status == StatusInternalServerError && groups == map[]
    ensures Collect(Values(catalog), ActiveOnly).Some? ==>
              var items := Collect(Values(catalog), ActiveOnly).value;
              && status == StatusOK
              && (forall c :: c in groups <==> OfCategory(items, c) != [])
              && (forall c :: c in groups ==> multiset(groups[c]) == multiset(OfCategory(items, c)))
              && (forall c :: c in groups ==> SortedBy(groups[c], ByDisplayOrder))
  {
    var ok, items := FetchItems(catalog, ActiveOnly);
    if !ok {
      return StatusInternalServerError, map[];
    }
    var grouped := GroupByCategory(items);
    groups := SortGroups(grouped);
    status := StatusOK;
  }

  /** Every item of a group carries that group's category, and every item has its group. */
  lemma GroupsAreCategories(items: seq<CatalogItem>, groups: map<string, seq<CatalogItem>>, c: string, x: CatalogItem)
    requires forall c :: c in groups <==> OfCategory(items, c) != []
    requires forall c :: c in groups ==> multiset(groups[c]) == multiset(OfCategory(items, c))
    ensures c in groups && x in groups[c] ==> x.Category == c && x in items
    ensures x in items ==> x.Category in groups && x in groups[x.Category]
  {
    OfCategoryMembers(items, c, x);
    OfCategoryMembers(items, x.Category, x);
    if c in groups && x in groups[c] {
      assert x in multiset(groups[c]);
    }
    if x in items {
      assert x in multiset(OfCategory(items, x.Category));
    }
  }

  // ---------------------------------------------------------------------
  // Admin writes
  // ---------------------------------------------------------------------

  /**
   * `CreateCatalogItem`: 400 for a body that does not bind, an empty value,
   * label or category, or a category outside the table; otherwise the item
   * gets a fresh ID and the creation time, is made active, and is stored.
   */
  method CreateCatalogItem(body: Option<CatalogItem>, newID: string, now: int, catalog: Collection<Fields>)
    returns (status: int, created: Option<CatalogItem>, catalog': Collection<Fields>)
    ensures status == StatusCreated <==>
              body.Some? && body.value.Value != "" && body.value.Label != "" && ValidCategory(body.value.Category)
    ensures status != StatusCreated ==> status == StatusBadRequest && created.None? && catalog' == catalog
    ensures status == StatusCreated ==>
              && created == Some(body.value.(ID := newID, CreatedAt := now, IsActive := true))
              && catalog' == Set(catalog, newID, ItemFields(created.value))
              && Get(catalog', newID).Some? && DecodeItem(Get(catalog', newID).value) == created
  {
    if body.None? {
      return StatusBadRequest, None, catalog;
    }
    var item := body.value;
    if item.Value == "" || item.Label == "" || item.Category == "" {
      return StatusBadRequest, None, catalog;
    }
    if !ValidCategory(item.Category) {
      return StatusBadRequest, None, catalog;
    }
    item := item.(ID := newID, CreatedAt := now);
    if !item.IsActive {
      item := item.(IsActive := true);
    }
    catalog' := Set(catalog, newID, ItemFields(item));
    GetSet(catalog, newID, ItemFields(item));
    DecodeItemFields(item);
    status, created := StatusCreated, Some(item);
  }

  /** The whitelisted part of an update body. */
  function Whitelisted(body: Fields): (allowed: Fields)
    ensures allowed.Keys <= UpdatableFields
  {
    map k | k in body && k in UpdatableFields :: body[k]
  }

  /** The `switch key` loop that builds the Firestore updates. */
  method WhitelistUpdates(body: Fields) returns (allowed: Fields)
    ensures allowed == Whitelisted(body)
  {
    var keys := KeysInSomeOrder(body);
    allowed := map[];
    for i := 0 to |keys|
      invariant allowed == map k | k in keys[..i] && k in UpdatableFields :: body[k]
    {
      var key := keys[i];
      assert keys[..i + 1] == keys[..i] + [key];
      if key in UpdatableFields {
        allowed := allowed[key := body[key]];
      }
    }
    assert keys[..|keys|] == keys;
  }

  /** A whitelisted update never touches the item's ID, category or creation time. */
  lemma WhitelistKeepsIdentity(doc: Fields, body: Fields, k: string)
    requires k !in UpdatableFields
    ensures (k in doc + Whitelisted(body)) == (k in doc)
    ensures k in doc ==> (doc + Whitelisted(body))[k] == doc[k]
  {
  }

  /** A whitelisted update sets every updatable field the body names. */
  lemma WhitelistSetsUpdatable(doc: Fields, body: Fields, k: string)
    requires k in UpdatableFields && k in body
    ensures (doc + Whitelisted(body))[k] == body[k]
  {
  }

  /**
   * `UpdateCatalogItem`: 400 for a body that does not bind or names no
   * updatable field (nothing is written), 500 when the item does not exist,
   * otherwise the whitelisted fields are merged into the stored item.
   */
  method UpdateCatalogItem(itemID: string, body: Option<Fields>, catalog: Collection<Fields>)
    returns (status: int, catalog': Collection<Fields>)
    ensures body.None? || Whitelisted(body.value) == map[] ==> status == StatusBadRequest && catalog' == catalog
    ensures body.Some? && Whitelisted(body.value) != map[] && Get(catalog, itemID).None? ==>
              status == StatusInternalServerError && catalog' == catalog
    ensures body.Some? && Whitelisted(body.value) != map[] && Get(catalog, itemID).Some? ==>
              && status == StatusOK
              && Get(catalog', itemID) == Some(Get(catalog, itemID).value + Whitelisted(body.value))
              && forall other :: other != itemID ==> Get(catalog', other) == Get(catalog, other)
  {
    if body.None? {
      return StatusBadRequest, catalog;
    }
    var allowed := WhitelistUpdates(body.value);
    if |allowed| == 0 {
      return StatusBadRequest, catalog;
    }
    var updated := Update(catalog, itemID, allowed);
    if updated.None? {
      return StatusInternalServerError, catalog;
    }
    status, catalog' := StatusOK, updated.value;
    forall other ensures other != itemID ==> Get(catalog', other) == Get(catalog, other) {
      GetUpdate(catalog, itemID, allowed, other);
    }
    GetUpdate(catalog, itemID, allowed, itemID);
  }

  /** `DeleteCatalogItem`: deleting succeeds whether or not the item exists. */
  method DeleteCatalogItem(itemID: string, catalog: Collection<Fields>) returns (status: int, catalog': Collection<Fields>)
    ensures status == StatusOK && catalog' == Delete(catalog, itemID)
    ensures UniqueIds(catalog) ==> Get(catalog', itemID).None?
  {
    status, catalog' := StatusOK, Delete(catalog, itemID);
    if UniqueIds(catalog) {
      GetDelete(catalog, itemID);
    }
  }

  /** `GetAllCatalogItems` pages with a default of 50 and at most 100 per page. */
  function CatalogItemsPage(limitRaw: string, offsetRaw: string): (page: (int, int))
    ensures 0 < page.0 <= 100 && page.1 >= 0
    ensures limitRaw == "" ==> page.0 == 50
    ensures offsetRaw == "" ==> page.1 == 0
    ensures (Paging.Atoi(limitRaw).Some? && 0 < Paging.Atoi(limitRaw).value <= 100) ==> page.0 == Paging.Atoi(limitRaw).value
    ensures !(Paging.Atoi(limitRaw).Some? && 0 < Paging.Atoi(limitRaw).value <= 100) ==> page.0 == 50
    ensures (Paging.Atoi(offsetRaw).Some? && Paging.Atoi(offsetRaw).value >= 0) ==> page.1 == Paging.Atoi(offsetRaw).value
    ensures !(Paging.Atoi(offsetRaw).Some? && Paging.Atoi(offsetRaw).value >= 0) ==> page.1 == 0
  {
    (Paging.QueryLimit(limitRaw, 50, 100), Paging.QueryOffset(offsetRaw))
  }
}
