/**
 * Admin management of coffee cases. A created case is stored as the field
 * map its struct encodes to; an update forwards the client's JSON fields.
 * Both paths give a coffee a fresh UUID when its ID is empty or still carries
 * the front end's `coffee_` placeholder prefix. UUIDs are taken from
 * `uuidAt`, the fresh identifier drawn for the coffee at a given position.
 */
module Cases {
  import opened Wrappers
  import opened Json
  import opened Models
  import opened Firestore
  import Text

  /** An ID that is empty or a `coffee_` placeholder is replaced. */
  predicate NeedsNewID(id: string) {
    id == "" || Text.HasPrefix(id, "coffee_")
  }

  // ---------------------------------------------------------------------
  // Firestore layout
  // ---------------------------------------------------------------------

  function CoffeeFields(c: CoffeeItem): Fields {
    map["id" := JStr(c.ID), "name" := JStr(c.Name), "region" := JStr(c.Region),
        "variety" := JStr(c.Variety), "process" := JStr(c.Process),
        "roast_level" := JStr(c.RoastLevel), "tasting_notes" := JStr(c.TastingNotes),
        "farm" := JStr(c.Farm), "altitude" := JNum(c.Altitude)]
  }

  function CoffeesJson(cs: seq<CoffeeItem>): (r: seq<Json>)
    ensures |r| == |cs|
  {
    seq(|cs|, i requires 0 <= i < |cs| => JObj(CoffeeFields(cs[i])))
  }

  function QuestionsJson(q: EnabledQuestions): Json {
    JObj(map["region" := JBool(q.Region), "variety" := JBool(q.Variety), "process" := JBool(q.Process),
             "taste_note_1" := JBool(q.TasteNote1), "taste_note_2" := JBool(q.TasteNote2),
             "favorite_coffee" := JBool(q.FavoriteCoffee), "brewing_method" := JBool(q.BrewingMethod)])
  }

  /** How `Doc(newCase.ID).Set(ctx, newCase)` lays a case out in Firestore. */
  function CaseFields(c: CoffeeCase): Fields {
    map["id" := JStr(c.ID), "name" := JStr(c.Name), "description" := JStr(c.Description),
        "price" := JNum(c.Price), "coffees" := JArr(CoffeesJson(c.Coffees)),
        "enabled_questions" := QuestionsJson(c.EnabledQuestions),
        "created_at" := JTime(c.CreatedAt), "updated_at" := JTime(c.UpdatedAt),
        "is_active" := JBool(c.IsActive)]
  }

  // ---------------------------------------------------------------------
  // Coffee-ID normalisation
  // ---------------------------------------------------------------------

  /** The coffees of a new case once placeholder IDs are replaced. */
  function NormalizedCoffees(cs: seq<CoffeeItem>, uuidAt: nat -> string): (r: seq<CoffeeItem>)
    ensures |r| == |cs|
  {
    seq(|cs|, i requires 0 <= i < |cs| => if NeedsNewID(cs[i].ID) then cs[i].(ID := uuidAt(i)) else cs[i])
  }

  /**
   * Only placeholder IDs change, they change to the coffee's fresh UUID, and
   * nothing but the ID of any coffee changes.
   */
  lemma NormalizedCoffeesRule(cs: seq<CoffeeItem>, uuidAt: nat -> string, i: nat)
    requires i < |cs|
    ensures NormalizedCoffees(cs, uuidAt)[i] == cs[i].(ID := NormalizedCoffees(cs, uuidAt)[i].ID)
    ensures !NeedsNewID(cs[i].ID) ==> NormalizedCoffees(cs, uuidAt)[i] == cs[i]
    ensures NeedsNewID(cs[i].ID) ==> NormalizedCoffees(cs, uuidAt)[i].ID == uuidAt(i)
  {
  }

  /** With proper UUIDs no placeholder survives, so normalising twice changes nothing. */
  lemma NormalizedCoffeesIdempotent(cs: seq<CoffeeItem>, uuidAt: nat -> string)
    requires forall i :: !NeedsNewID(uuidAt(i))
    ensures forall i :: 0 <= i < |cs| ==> !NeedsNewID(NormalizedCoffees(cs, uuidAt)[i].ID)
    ensures NormalizedCoffees(NormalizedCoffees(cs, uuidAt), uuidAt) == NormalizedCoffees(cs, uuidAt)
  {
  }

  /** The `for i := range newCase.Coffees` loop of `CreateCase`. */
  method NormalizeCoffeeIDs(cs: seq<CoffeeItem>, uuidAt: nat -> string) returns (r: seq<CoffeeItem>)
    ensures r == NormalizedCoffees(cs, uuidAt)
  {
    r := cs;
    for i := 0 to |r|
      invariant |r| == |cs|
      invariant forall j :: 0 <= j < i ==> r[j] == NormalizedCoffees(cs, uuidAt)[j]
      invariant forall j :: i <= j < |r| ==> r[j] == cs[j]
    {
      assert NormalizedCoffees(cs, uuidAt)[i] == if NeedsNewID(cs[i].ID) then cs[i].(ID := uuidAt(i)) else cs[i];
      if r[i].ID == "" || Text.HasPrefix(r[i].ID, "coffee_") {
        r := r[i := r[i].(ID := uuidAt(i))];
      }
      assert r[i] == NormalizedCoffees(cs, uuidAt)[i];
    }
  }

  /** One entry of an update's `coffees` array: only an object with a string placeholder `id` changes. */
  function NormalizedEntry(entry: Json, newID: string): Json {
    match entry
    case JObj(m) =>
      if "id" in m && m["id"].JStr? && NeedsNewID(m["id"].s) then JObj(m["id" := JStr(newID)]) else entry
    case _ => entry
  }

  function NormalizedCoffeeMaps(items: seq<Json>, uuidAt: nat -> string): (r: seq<Json>)
    ensures |r| == |items|
  {
    seq(|items|, i requires 0 <= i < |items| => NormalizedEntry(items[i], uuidAt(i)))
  }

  /** Entries that are not objects, or have no string `id`, or a proper one, are left as they are. */
  lemma NormalizedCoffeeMapsKeep(items: seq<Json>, uuidAt: nat -> string, i: nat)
    requires i < |items|
    requires !items[i].JObj? || "id" !in items[i].fields || !items[i].fields["id"].JStr? || !NeedsNewID(items[i].fields["id"].s)
    ensures NormalizedCoffeeMaps(items, uuidAt)[i] == items[i]
  {
    assert NormalizedCoffeeMaps(items, uuidAt)[i] == NormalizedEntry(items[i], uuidAt(i));
  }

  /** A rewritten entry differs from the original only in its `id`. */
  lemma NormalizedCoffeeMapsRewrite(items: seq<Json>, uuidAt: nat -> string, i: nat, k: string)
    requires i < |items| && items[i].JObj? && "id" in items[i].fields
    requires items[i].fields["id"].JStr? && NeedsNewID(items[i].fields["id"].s)
    ensures NormalizedCoffeeMaps(items, uuidAt)[i].JObj?
    ensures NormalizedCoffeeMaps(items, uuidAt)[i].fields.Keys == items[i].fields.Keys
    ensures NormalizedCoffeeMaps(items, uuidAt)[i].fields["id"] == JStr(uuidAt(i))
    ensures k != "id" && k in items[i].fields ==> NormalizedCoffeeMaps(items, uuidAt)[i].fields[k] == items[i].fields[k]
  {
    assert NormalizedCoffeeMaps(items, uuidAt)[i] == NormalizedEntry(items[i], uuidAt(i));
  }

  /** The update path treats encoded coffees exactly as the create path treats the structs. */
  lemma NormalizationAgrees(cs: seq<CoffeeItem>, uuidAt: nat -> string)
    ensures NormalizedCoffeeMaps(CoffeesJson(cs), uuidAt) == CoffeesJson(NormalizedCoffees(cs, uuidAt))
  {
    var l, r := NormalizedCoffeeMaps(CoffeesJson(cs), uuidAt), CoffeesJson(NormalizedCoffees(cs, uuidAt));
    forall i | 0 <= i < |cs| ensures l[i] == r[i] {
      assert l[i] == NormalizedEntry(JObj(CoffeeFields(cs[i])), uuidAt(i));
      var m := CoffeeFields(cs[i]);
      assert m["id"] == JStr(cs[i].ID);
      if NeedsNewID(cs[i].ID) {
        assert m["id" := JStr(uuidAt(i))] == CoffeeFields(cs[i].(ID := uuidAt(i)));
      }
    }
  }

  /** The coffee loop of `UpdateCase`. */
  method NormalizeCoffeeMaps(items: seq<Json>, uuidAt: nat -> string) returns (r: seq<Json>)
    ensures r == NormalizedCoffeeMaps(items, uuidAt)
  {
    r := items;
    for i := 0 to |r|
      invariant |r| == |items|
      invariant forall j :: 0 <= j < i ==> r[j] == NormalizedCoffeeMaps(items, uuidAt)[j]
      invariant forall j :: i <= j < |r| ==> r[j] == items[j]
    {
      if r[i].JObj? {
        var coffee := r[i].fields;
        if "id" in coffee && coffee["id"].JStr? && NeedsNewID(coffee["id"].s) {
          r := r[i := JObj(coffee["id" := JStr(uuidAt(i))])];
        }
      }
      assert r[i] == NormalizedCoffeeMaps(items, uuidAt)[i] by {
        assert NormalizedCoffeeMaps(items, uuidAt)[i] == NormalizedEntry(items[i], uuidAt(i));
      }
    }
  }

  // ---------------------------------------------------------------------
  // Handlers
  // ---------------------------------------------------------------------

  /**
   * `CreateCase`: 400 for a body that does not bind or lacks a name or a
   * description; otherwise the case gets its ID and timestamps (two clock
   * reads), placeholder coffee IDs are replaced, and it is stored. IsActive is
   * kept as sent: the "default to inactive" branch assigns false to a field
   * that is already false.
   */
  method CreateCase(body: Option<CoffeeCase>, caseID: string, uuidAt: nat -> string, now1: int, now2: int,
                    cases: Collection<Fields>)
    returns (status: int, created: Option<CoffeeCase>, cases': Collection<Fields>)
    ensures status == StatusCreated <==> body.Some? && body.value.Name != "" && body.value.Description != ""
    ensures status != StatusCreated ==> status == StatusBadRequest && created.None? && cases' == cases
    ensures status == StatusCreated ==>
              && created == Some(body.value.(ID := caseID, CreatedAt := now1, UpdatedAt := now2,
                                             Coffees := NormalizedCoffees(body.value.Coffees, uuidAt)))
              && created.value.IsActive == body.value.IsActive
              && cases' == Set(cases, caseID, CaseFields(created.value))
              && Get(cases', caseID) == Some(CaseFields(created.value))
  {
    if body.None? {
      return StatusBadRequest, None, cases;
    }
    var newCase := body.value;
    if newCase.Name == "" || newCase.Description == "" {
      return StatusBadRequest, None, cases;
    }
    newCase := newCase.(ID := caseID, CreatedAt := now1, UpdatedAt := now2);
    var coffees := NormalizeCoffeeIDs(newCase.Coffees, uuidAt);
    newCase := newCase.(Coffees := coffees);
    if !newCase.IsActive {
      newCase := newCase.(IsActive := false);
    }
    cases' := Set(cases, caseID, CaseFields(newCase));
    GetSet(cases, caseID, CaseFields(newCase));
    status, created := StatusCreated, Some(newCase);
  }

  /** The update map `UpdateCase` sends: coffees normalised when they are an array, and the update time. */
  function CaseUpdates(body: Fields, uuidAt: nat -> string, now: int): Fields {
    var withCoffees :=
      if "coffees" in body && body["coffees"].JArr?
      then body["coffees" := JArr(NormalizedCoffeeMaps(body["coffees"].items, uuidAt))]
      else body;
    withCoffees["updated_at" := JTime(now)]
  }

  /**
   * An update names the body's fields plus `updated_at`, which always holds
   * the handler's time; every field other than `coffees` is forwarded as is.
   */
  lemma CaseUpdatesShape(body: Fields, uuidAt: nat -> string, now: int, k: string)
    ensures CaseUpdates(body, uuidAt, now).Keys == body.Keys + {"updated_at"}
    ensures CaseUpdates(body, uuidAt, now)["updated_at"] == JTime(now)
    ensures k in body && k != "coffees" && k != "updated_at" ==> CaseUpdates(body, uuidAt, now)[k] == body[k]
    ensures "coffees" in body && body["coffees"].JArr? ==>
              CaseUpdates(body, uuidAt, now)["coffees"] == JArr(NormalizedCoffeeMaps(body["coffees"].items, uuidAt))
    ensures "coffees" in body && !body["coffees"].JArr? ==> CaseUpdates(body, uuidAt, now)["coffees"] == body["coffees"]
  {
  }

  method PrepareCaseUpdates(body: Fields, uuidAt: nat -> string, now: int) returns (updates: Fields)
    ensures updates == CaseUpdates(body, uuidAt, now)
  {
    updates := body;
    if "coffees" in updates {
      var coffeesData := updates["coffees"];
      if coffeesData.JArr? {
        var coffeesSlice := NormalizeCoffeeMaps(coffeesData.items, uuidAt);
        updates := updates["coffees" := JArr(coffeesSlice)];
      }
    }
    updates := updates["updated_at" := JTime(now)];
  }

  /**
   * `UpdateCase`: 400 for a body that is not JSON or not an object. A `null`
   * body binds to a nil map without error, and storing `updated_at` into that
   * map panics; the router's recovery middleware then answers 500, before the
   * existence check and with no write. Otherwise 404 and no write when the
   * case does not exist, else the prepared fields are merged into it.
   */
  method UpdateCase(caseID: string, body: Option<Json>, uuidAt: nat -> string, now: int, cases: Collection<Fields>)
    returns (status: int, cases': Collection<Fields>)
    ensures (body.None? || (!body.value.JNull? && !body.value.JObj?)) ==> status == StatusBadRequest && cases' == cases
    ensures body == Some(JNull) ==> status == StatusInternalServerError && cases' == cases
    ensures body.Some? && body.value.JObj? && Get(cases, caseID).None? ==> status == StatusNotFound && cases' == cases
    ensures body.Some? && body.value.JObj? && Get(cases, caseID).Some? ==>
              && status == StatusOK
              && Get(cases', caseID) == Some(Get(cases, caseID).value + CaseUpdates(body.value.fields, uuidAt, now))
              && forall other :: other != caseID ==> Get(cases', other) == Get(cases, other)
  {
    if body.None? || (!body.value.JNull? && !body.value.JObj?) {
      return StatusBadRequest, cases;
    }
    if body.value.JNull? {
      return StatusInternalServerError, cases;
    }
    var updates := PrepareCaseUpdates(body.value.fields, uuidAt, now);
    if Get(cases, caseID).None? {
      return StatusNotFound, cases;
    }
    var updated := Update(cases, caseID, updates);
    status, cases' := StatusOK, updated.value;
    forall other ensures other != caseID ==> Get(cases', other) == Get(cases, other) {
      GetUpdate(cases, caseID, updates, other);
    }
    GetUpdate(cases, caseID, updates, caseID);
  }

  /** `DeleteCase`: 404 and no change when the case does not exist, otherwise it is removed. */
  method DeleteCase(caseID: string, cases: Collection<Fields>) returns (status: int, cases': Collection<Fields>)
    ensures Get(cases, caseID).None? ==> status == StatusNotFound && cases' == cases
    ensures Get(cases, caseID).Some? ==> status == StatusOK && cases' == Delete(cases, caseID) && |cases'| == |cases| - 1
    ensures UniqueIds(cases) ==> Get(cases', caseID).None?
  {
    if Get(cases, caseID).None? {
      return StatusNotFound, cases;
    }
    status, cases' := StatusOK, Delete(cases, caseID);
    if UniqueIds(cases) {
      GetDelete(cases, caseID);
    }
  }
}
