/**
 * Values that cross the JSON and Firestore boundaries. `Json` is what Gin
 * binds a `map[string]interface{}` request body to and what a Firestore
 * document holds field by field; `Fields` is one such document or update map.
 * Numbers are modelled as integers and timestamps as integer nanoseconds.
 */
module Json {

  datatype Json =
    | JNull
    | JBool(b: bool)
    | JNum(n: int)
    | JStr(s: string)
    | JTime(t: int)
    | JArr(items: seq<Json>)
    | JObj(fields: map<string, Json>)

  type Fields = map<string, Json>
}

/**
 * An in-memory stand-in for one Firestore collection: its documents in the
 * order a query yields them, each under its document ID. `Set` replaces or
 * creates a document, `Update` fails on a missing document, `Delete` of a
 * missing document succeeds without effect, as Firestore's client does.
 */
module Firestore {
  import opened Wrappers

  datatype DocRef<D> = DocRef(id: string, data: D)

  type Collection<D> = seq<DocRef<D>>

  /** No two documents share an ID. */
  ghost predicate UniqueIds<D>(c: Collection<D>) {
    forall i, j :: 0 <= i < j < |c| ==> c[i].id != c[j].id
  }

  function IndexOf<D>(c: Collection<D>, id: string): (r: Option<nat>)
    ensures r.Some? ==> r.value < |c| && c[r.value].id == id
    ensures r.Some? ==> forall j :: 0 <= j < r.value ==> c[j].id != id
    ensures r.None? ==> forall j :: 0 <= j < |c| ==> c[j].id != id
  {
    if c == [] then None
    else if c[0].id == id then Some(0)
    else match IndexOf(c[1..], id)
      case None => None
      case Some(k) => Some(k + 1)
  }

  /** `Doc(id).Get`: the stored document, or None when it does not exist. */
  function Get<D>(c: Collection<D>, id: string): Option<D> {
    match IndexOf(c, id)
    case None => None
    case Some(k) => Some(c[k].data)
  }

  /** `Doc(id).Set`: overwrite the document, or append it when it is new. */
  function Set<D>(c: Collection<D>, id: string, d: D): (r: Collection<D>)
    ensures |r| == |c| || |r| == |c| + 1
  {
    match IndexOf(c, id)
    case None => c + [DocRef(id, d)]
    case Some(k) => c[k := DocRef(id, d)]
  }

  /** `Doc(id).Delete`: remove the document if it is there. */
  function Delete<D>(c: Collection<D>, id: string): (r: Collection<D>)
    ensures UniqueIds(c) ==> UniqueIds(r)
  {
    match IndexOf(c, id)
    case None => c
    case Some(k) => c[..k] + c[k + 1..]
  }

  /**
   * `Doc(id).Update` with top-level field paths: the listed fields are
   * overwritten or added and the others kept; a missing document is an error.
   */
  function Update<K, V>(c: Collection<map<K, V>>, id: string, upd: map<K, V>): (r: Option<Collection<map<K, V>>>)
    ensures r.None? <==> Get(c, id).None?
    ensures r.Some? ==> |r.value| == |c|
  {
    match Get(c, id)
    case None => None
    case Some(d) => Some(Set(c, id, d + upd))
  }

  /** An update merges into the stored document and touches no other document. */
  lemma GetUpdate<K, V>(c: Collection<map<K, V>>, id: string, upd: map<K, V>, other: string)
    requires Update(c, id, upd).Some?
    ensures Get(Update(c, id, upd).value, id) == Some(Get(c, id).value + upd)
    ensures other != id ==> Get(Update(c, id, upd).value, other) == Get(c, other)
  {
    var d := Get(c, id).value;
    GetSet(c, id, d + upd);
    if other != id {
      GetSetOther(c, id, d + upd, other);
    }
  }

  /** A document that was just set reads back as written. */
  lemma GetSet<D>(c: Collection<D>, id: string, d: D)
    ensures Get(Set(c, id, d), id) == Some(d)
  {
    var r := Set(c, id, d);
    var ix := IndexOf(c, id);
    var k := if ix.Some? then ix.value else |c|;
    assert r[k] == DocRef(id, d);
    assert forall j :: 0 <= j < k ==> r[j].id != id;
    var rx := IndexOf(r, id);
    assert rx.Some? && rx.value == k;
  }

  /** Setting one document leaves every other document as it was. */
  lemma GetSetOther<D>(c: Collection<D>, id: string, d: D, other: string)
    requires other != id
    ensures Get(Set(c, id, d), other) == Get(c, other)
  {
    var r := Set(c, id, d);
    assert forall j :: 0 <= j < |r| && r[j].id == other ==> j < |c| && r[j] == c[j];
    assert forall j :: 0 <= j < |c| && c[j].id == other ==> j < |r| && r[j] == c[j];
    var cx, rx := IndexOf(c, other), IndexOf(r, other);
    if cx.Some? {
      assert r[cx.value].id == other;
    }
    if rx.Some? {
      assert c[rx.value].id == other;
    }
  }

  /** Set keeps document IDs unique. */
  lemma SetUnique<D>(c: Collection<D>, id: string, d: D)
    requires UniqueIds(c)
    ensures UniqueIds(Set(c, id, d))
  {
  }

  /** A deleted document is gone. */
  lemma GetDelete<D>(c: Collection<D>, id: string)
    requires UniqueIds(c)
    ensures Get(Delete(c, id), id).None?
  {
    var r := Delete(c, id);
    match IndexOf(c, id)
    case None =>
    case Some(k) =>
      assert forall j :: 0 <= j < |r| ==> r[j].id != id by {
        forall j | 0 <= j < |r| ensures r[j].id != id {
          if j < k { assert r[j] == c[j]; } else { assert r[j] == c[j + 1]; }
        }
      }
  }

  /** The documents as the collection's iterator yields them. */
  function Values<D>(c: Collection<D>): (r: seq<D>)
    ensures |r| == |c| && forall i :: 0 <= i < |c| ==> r[i] == c[i].data
  {
    seq(|c|, i requires 0 <= i < |c| => c[i].data)
  }
}

/** Ranging over a Go map: every key once, in an order the program cannot rely on. */
module GoMaps {

  ghost predicate NoDuplicates<T>(s: seq<T>) {
    forall i, j :: 0 <= i < j < |s| ==> s[i] != s[j]
  }

  /** The keys of m, each once, in some order. */
  method KeysInSomeOrder<K, V>(m: map<K, V>) returns (keys: seq<K>)
    ensures forall k :: k in keys <==> k in m
    ensures NoDuplicates(keys)
    ensures |keys| == |m.Keys|
  {
    keys := [];
    var remaining := m.Keys;
    while remaining != {}
      invariant remaining <= m.Keys
      invariant forall k :: k in keys <==> k in m && k !in remaining
      invariant NoDuplicates(keys)
      invariant |keys| + |remaining| == |m.Keys|
      decreases |remaining|
    {
      var k :| k in remaining;
      keys := keys + [k];
      remaining := remaining - {k};
    }
  }
}

/** Option and Result in the usual shape. */
module Wrappers {
  datatype Option<T> = None | Some(value: T)

  datatype Result<T, E> = Ok(value: T) | Err(error: E)
}
