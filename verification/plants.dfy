/** The Plant record, the table that holds the records, and the record's
    wire shape (`plant_to_dict`). */
module Plants {
  import opened Json
  import opened Wrappers
  import Ordered

  const IdKey := "id"
  const NameKey := "name"
  const ImageKey := "image"
  const PriceKey := "price"
  const InStockKey := "is_in_stock"

  /** The fields a create request must carry, in the order they are checked. */
  const RequiredFields: seq<string> := [NameKey, ImageKey, PriceKey, InStockKey]

  /** The keys of a Plant on the wire. */
  const WireKeys: set<string> := {IdKey, NameKey, ImageKey, PriceKey, InStockKey}

  /** One stored row. The handlers never check the types of the four data
      fields, so each holds whatever JSON value the client sent; the price in
      particular is only stored and copied. */
  datatype Plant = Plant(id: int, name: Value, image: Value, price: Value, isInStock: Value)

  /** The Plant table, keyed by primary key. The key of a row is its id
      column, so the two always agree. */
  type Store = s: map<int, Plant> | forall k :: k in s ==> s[k].id == k
    witness map[]

  /** Writes a row under its own id, adding it or replacing the row there. */
  function Put(store: Store, p: Plant): (s: Store)
    ensures s == store[p.id := p]
  {
    var m := store[p.id := p];
    assert forall k :: k in m ==> m[k].id == k by {
      forall k | k in m
        ensures m[k].id == k
      {
        if k != p.id {
          assert m[k] == store[k];
        }
      }
    }
    m
  }

  /** Removes the row under a key, if there is one. */
  function Remove(store: Store, id: int): (s: Store)
    ensures s == store - {id}
  {
    store - {id}
  }

  /** A parsed request body: field name to value. */
  type Body = map<string, Value>

  /** The value of one data field of a row, looked up by its wire name. */
  function Field(p: Plant, key: string): Value
    requires key in RequiredFields
  {
    if key == NameKey then p.name
    else if key == ImageKey then p.image
    else if key == PriceKey then p.price
    else p.isInStock
  }

  /** `plant_to_dict`: the record's wire shape, exactly the five wire keys,
      the id as a JSON integer and every data field copied unchanged. */
  function ToDict(p: Plant): (d: map<string, Value>)
    ensures d.Keys == WireKeys
    ensures d[IdKey] == Int(p.id)
    ensures forall key :: key in RequiredFields ==> d[key] == Field(p, key)
  {
    map[IdKey := Int(p.id), NameKey := p.name, ImageKey := p.image,
        PriceKey := p.price, InStockKey := p.isInStock]
  }

  /** Reads a wire-shaped object back into a record; anything that is not
      exactly the five wire keys with an integer id is refused. */
  function FromDict(d: map<string, Value>): Option<Plant>
  {
    if d.Keys == WireKeys && d[IdKey].Int? then
      Some(Plant(d[IdKey].i, d[NameKey], d[ImageKey], d[PriceKey], d[InStockKey]))
    else
      None
  }

  /** The projection loses nothing: reading it back gives the record. */
  lemma FromToDict(p: Plant)
    ensures FromDict(ToDict(p)) == Some(p)
  {
  }

  /** And every object that reads back as a record is that record's projection,
      so the two are inverse on the wire shape. */
  lemma ToFromDict(d: map<string, Value>, p: Plant)
    ensures FromDict(d) == Some(p) <==> ToDict(p) == d
  {
  }

  /** Two rows with the same projection are the same row. */
  lemma ToDictInjective(p: Plant, q: Plant)
    requires ToDict(p) == ToDict(q)
    ensures p == q
  {
  }

  /** The rows stored under the given keys, in the given order. */
  function RowsAt(store: Store, ids: seq<int>): (rows: seq<Plant>)
    requires forall i :: 0 <= i < |ids| ==> ids[i] in store
    ensures |rows| == |ids|
    ensures forall i :: 0 <= i < |ids| ==> rows[i] == store[ids[i]]
  {
    seq(|ids|, i requires 0 <= i < |ids| => store[ids[i]])
  }

  /** `select(Plant)`: the rows of the table in ascending id order. */
  function Rows(store: Store): (rows: seq<Plant>)
    ensures |rows| == |store|
    ensures forall i :: 0 <= i < |rows| ==> rows[i].id in store && store[rows[i].id] == rows[i]
    ensures forall k :: k in store ==> store[k] in rows
    ensures forall i, j :: 0 <= i < j < |rows| ==> rows[i].id < rows[j].id
  {
    var ids := Ordered.SortedIds(store.Keys);
    var rows := RowsAt(store, ids);
    RowsCoverStore(store, ids, rows);
    rows
  }

  /** Every row of the table is found among the rows of a key list that
      covers the table. */
  lemma RowsCoverStore(store: Store, ids: seq<int>, rows: seq<Plant>)
    requires forall k :: k in store <==> k in ids
    requires |rows| == |ids|
    requires forall i :: 0 <= i < |ids| ==> ids[i] in store && rows[i] == store[ids[i]]
    ensures forall k :: k in store ==> store[k] in rows
  {
  }

  /** Row `i` is the first row of the scan whose id is `id`. */
  predicate IsFirstMatch(rows: seq<Plant>, i: int, id: int)
  {
    0 <= i < |rows| && rows[i].id == id && forall j :: 0 <= j < i ==> rows[j].id != id
  }

  /** `.where(Plant.id == id).first()`: the first row of a scan whose id matches. */
  function FirstWithId(rows: seq<Plant>, id: int): (r: Option<Plant>)
    ensures r.Some? ==> exists i :: IsFirstMatch(rows, i, id) && rows[i] == r.value
    ensures r.None? <==> forall i :: 0 <= i < |rows| ==> rows[i].id != id
  {
    if |rows| == 0 then None
    else if rows[0].id == id then
      assert IsFirstMatch(rows, 0, id);
      Some(rows[0])
    else
      var r := FirstWithId(rows[1..], id);
      assert r.Some? ==> exists i :: IsFirstMatch(rows, i, id) && rows[i] == r.value by {
        if r.Some? {
          var i :| IsFirstMatch(rows[1..], i, id) && rows[1..][i] == r.value;
          forall j | 0 <= j < i + 1
            ensures rows[j].id != id
          {
            if j > 0 {
              assert rows[j] == rows[1..][j - 1];
            }
          }
          assert IsFirstMatch(rows, i + 1, id) && rows[i + 1] == r.value;
        }
      }
      r
  }

  /** `get_plant_by_id`: the query finds a row exactly when the id is a key
      of the table, and then it is the row stored under that key. */
  function GetPlantById(store: Store, id: int): (r: Option<Plant>)
    ensures r == (if id in store then Some(store[id]) else None)
  {
    var rows := Rows(store);
    var found := FirstWithId(rows, id);
    assert id in store ==> found.Some? by {
      if id in store {
        var i :| 0 <= i < |rows| && rows[i] == store[id];
      }
    }
    found
  }
}
