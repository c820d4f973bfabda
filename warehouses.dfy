/**
 * lib/api/warehouses.ts: `getWarehouses` turns the warehouse-list response
 * into a list of `{ warehouse_id, warehouse_name }` string records.
 */
module Warehouses {
  import opened Js

  const BasePath := "/api/method/stocker.stocker.api.warehouse_list"

  datatype Warehouse = Warehouse(warehouseId: string, warehouseName: string)

  /** `json?.data ?? json?.message ?? []` */
  function ListSource(json: Any): Any
  {
    Coalesce(Coalesce(Get(json, "data"), Get(json, "message")), Some(JArr([])))
  }

  /** The filter: `w && (w.warehouse_id || w.warehouse_name)` */
  predicate Keep(w: Json)
  {
    Truthy(Some(w)) && (Truthy(Get(Some(w), "warehouse_id")) || Truthy(Get(Some(w), "warehouse_name")))
  }

  /** `String(w[key] ?? '')` */
  function StringField(w: Json, key: string): string
  {
    ToJsString(Coalesce(Get(Some(w), key), Some(JStr(""))).value)
  }

  /** The map: both fields coerced to strings. */
  function ToWarehouse(w: Json): Warehouse
  {
    Warehouse(StringField(w, "warehouse_id"), StringField(w, "warehouse_name"))
  }

  /** `list.filter(Keep).map(ToWarehouse)` */
  function Select(ws: seq<Json>): seq<Warehouse>
  {
    if ws == [] then []
    else if Keep(ws[0]) then [ToWarehouse(ws[0])] + Select(ws[1..])
    else Select(ws[1..])
  }

  /** `getWarehouses()` applied to the response body. */
  function GetWarehouses(json: Any): (r: seq<Warehouse>)
    ensures AsArray(ListSource(json)).None? ==> r == []
    ensures AsArray(ListSource(json)).Some? ==> |r| <= |AsArray(ListSource(json)).value|
    ensures forall k :: 0 <= k < |r| ==> r[k] in Select(AsArray(ListSource(json)).value)
  {
    match AsArray(ListSource(json))
    case Some(ws) => SelectLength(ws); Select(ws)
    case None => []
  }

  /**
   * The list comes from `data` if that is neither null nor undefined, else
   * from `message`, else it is empty; a source that is not an array yields
   * no warehouses.
   */
  lemma SourcePriority(json: Any)
    ensures !Nullish(Get(json, "data")) ==> ListSource(json) == Get(json, "data")
    ensures Nullish(Get(json, "data")) && !Nullish(Get(json, "message")) ==> ListSource(json) == Get(json, "message")
    ensures Nullish(Get(json, "data")) && Nullish(Get(json, "message")) ==> GetWarehouses(json) == []
    ensures AsArray(ListSource(json)).None? ==> GetWarehouses(json) == []
  {
  }

  /** The output is never longer than the input, and as long exactly when every entry is kept. */
  lemma {:induction false} SelectLength(ws: seq<Json>)
    ensures |Select(ws)| <= |ws|
    ensures |Select(ws)| == |ws| <==> forall k :: 0 <= k < |ws| ==> Keep(ws[k])
  {
    if ws != [] {
      SelectLength(ws[1..]);
      if forall k :: 0 <= k < |ws[1..]| ==> Keep(ws[1..][k]) {
        assert Keep(ws[0]) ==> forall k :: 0 <= k < |ws| ==> Keep(ws[k]) by {
          forall k | 0 <= k < |ws| && Keep(ws[0]) ensures Keep(ws[k]) {
            if k > 0 { assert ws[k] == ws[1..][k - 1]; }
          }
        }
      } else {
        var k :| 0 <= k < |ws[1..]| && !Keep(ws[1..][k]);
        assert !Keep(ws[k + 1]);
      }
    }
  }

  /** Selection distributes over concatenation: output order follows input order. */
  lemma {:induction false} SelectAppend(a: seq<Json>, b: seq<Json>)
    ensures Select(a + b) == Select(a) + Select(b)
  {
    if a == [] {
      assert a + b == b;
    } else {
      assert (a + b)[1..] == a[1..] + b;
      SelectAppend(a[1..], b);
    }
  }

  /** A warehouse is in the output exactly when some kept input entry maps to it. */
  lemma {:induction false} SelectMembership(ws: seq<Json>, x: Warehouse)
    ensures x in Select(ws) <==> exists k :: 0 <= k < |ws| && Keep(ws[k]) && ToWarehouse(ws[k]) == x
  {
    if ws != [] {
      SelectMembership(ws[1..], x);
      if x in Select(ws[1..]) {
        var k :| 0 <= k < |ws[1..]| && Keep(ws[1..][k]) && ToWarehouse(ws[1..][k]) == x;
        assert ws[k + 1] == ws[1..][k];
      }
      if exists k :: 0 <= k < |ws| && Keep(ws[k]) && ToWarehouse(ws[k]) == x {
        var k :| 0 <= k < |ws| && Keep(ws[k]) && ToWarehouse(ws[k]) == x;
        if k > 0 {
          assert ws[k] == ws[1..][k - 1];
        }
      }
    }
  }

  /**
   * Field coercion: a missing or null field becomes "", a string is copied
   * unchanged and a number becomes its decimal text.
   */
  lemma StringFieldCoercion(w: Json, key: string)
    ensures Nullish(Get(Some(w), key)) ==> StringField(w, key) == ""
    ensures Get(Some(w), key).Some? && Get(Some(w), key).value.JStr? ==> StringField(w, key) == Get(Some(w), key).value.s
    ensures Get(Some(w), key).Some? && Get(Some(w), key).value.JNum? ==> StringField(w, key) == IntToDecimal(Get(Some(w), key).value.n)
  {
  }

  /**
   * An entry is dropped when it is null or has neither a truthy
   * `warehouse_id` nor a truthy `warehouse_name`; a kept entry that is an
   * object with string fields comes out with exactly those strings.
   */
  lemma KeepRule(m: map<string, Json>, id: string, name: string)
    requires m.Keys == {"warehouse_id", "warehouse_name"}
    requires m["warehouse_id"] == JStr(id) && m["warehouse_name"] == JStr(name)
    ensures Keep(JObj(m)) <==> id != "" || name != ""
    ensures !Keep(JNull)
    ensures Select([JObj(m)]) == (if id != "" || name != "" then [Warehouse(id, name)] else [])
  {
    assert [JObj(m)][1..] == [];
  }
}
