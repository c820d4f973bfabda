/**
 * lib/api/items.ts: query parameters and form bodies of the item and
 * stock-entry endpoints, and the unwrapping of their response envelopes. The
 * HTTP round trip itself is not modelled: a response body enters as a value.
 */
module Items {
  import opened Js
  import opened Form
  import Normalize

  const ListBasePath := "/api/method/stocker.stocker.api.list_items"
  const DetailBasePath := "/api/method/stocker.stocker.api.get_items"
  const StockEntriesPath := "/api/method/stocker.stocker.api.list_stock_entries"
  const DeleteEntryPath := "/api/method/stocker.stocker.api.delete_stock_entry"
  const CreateEntryPath := "/api/method/stocker.stocker.api.create_stock_entry"
  const UpdateEntryPath := "/api/method/stocker.stocker.api.update_stock_entry"

  /** The axios `params` record of a GET request. */
  type Params = map<string, string>

  // ---------------------------------------------------------------------------
  // Query parameters

  /** `listItems(warehouse_id)`: the warehouse filter is sent only when it is not blank, trimmed. */
  method ListItemsParams(warehouseId: string) returns (params: Params)
    ensures "warehouse" in params <==> NonBlank(warehouseId)
    ensures "warehouse" in params ==> params["warehouse"] == Trim(warehouseId) && NonBlank(params["warehouse"])
    ensures params.Keys <= {"warehouse"}
  {
    params := map[];
    if warehouseId != "" && |Trim(warehouseId)| > 0 {
      params := params["warehouse" := Trim(warehouseId)];
      TrimIdempotent(warehouseId);
    }
  }

  /** `listStockEntries(warehouse?)`: the same rule for an optional argument. */
  method StockEntriesParams(warehouse: Option<string>) returns (params: Params)
    ensures "warehouse" in params <==> NonBlankOpt(warehouse)
    ensures "warehouse" in params ==> params["warehouse"] == Trim(warehouse.value)
    ensures params.Keys <= {"warehouse"}
  {
    params := map[];
    if warehouse.Some? && warehouse.value != "" && |Trim(warehouse.value)| > 0 {
      params := params["warehouse" := Trim(warehouse.value)];
    }
  }

  /** `getItemByBarcode(barcode, warehouse_id)`: each parameter is sent independently, only when not blank, trimmed. */
  method ItemByBarcodeParams(barcode: string, warehouseId: string) returns (params: Params)
    ensures "barcode" in params <==> NonBlank(barcode)
    ensures "barcode" in params ==> params["barcode"] == Trim(barcode)
    ensures "warehouse" in params <==> NonBlank(warehouseId)
    ensures "warehouse" in params ==> params["warehouse"] == Trim(warehouseId)
    ensures params.Keys <= {"barcode", "warehouse"}
  {
    params := map[];
    if barcode != "" && |Trim(barcode)| > 0 {
      params := params["barcode" := Trim(barcode)];
    }
    if warehouseId != "" && |Trim(warehouseId)| > 0 {
      params := params["warehouse" := Trim(warehouseId)];
    }
  }

  // ---------------------------------------------------------------------------
  // Response envelopes

  /** The record `getItemByBarcode` returns. */
  datatype ItemDetail = ItemDetail(itemId: Any, itemName: Any, uom: Any, totalQty: Any, shelfQty: Any)

  const DetailKeys: set<string> := {"item_id", "item_name", "uom", "total_qty", "shelf_qty"}

  /** `getItemByBarcode`'s result from the response body: null when `json.data` is falsy. */
  function ItemDetailFromResponse(json: Any): (r: Option<ItemDetail>)
    ensures r.None? <==> !Truthy(Get(json, "data"))
  {
    var d := Get(json, "data");
    if !Truthy(d) then None
    else Some(ItemDetail(Get(d, "item_id"), Get(d, "item_name"), Get(d, "uom"), Get(d, "total_qty"), Get(d, "shelf_qty")))
  }

  /** Adds a property unless its value is `undefined`. */
  function PutDefined(m: map<string, Json>, key: string, v: Any): map<string, Json>
  {
    if v.Some? then m[key := v.value] else m
  }

  /** The object a caller sees, with the `undefined` fields dropped (as `JSON.stringify` does). */
  function DetailFields(d: ItemDetail): map<string, Json>
  {
    PutDefined(PutDefined(PutDefined(PutDefined(PutDefined(map[],
      "item_id", d.itemId), "item_name", d.itemName), "uom", d.uom), "total_qty", d.totalQty), "shelf_qty", d.shelfQty)
  }

  /**
   * The detail carries exactly and only the five fields `item_id`,
   * `item_name`, `uom`, `total_qty` and `shelf_qty` of `data`, copied unchanged.
   */
  lemma ItemDetailCopiesFields(json: Any, m: map<string, Json>)
    requires Get(json, "data") == Some(JObj(m))
    ensures ItemDetailFromResponse(json).Some?
    ensures DetailFields(ItemDetailFromResponse(json).value) == map k | k in m && k in DetailKeys :: m[k]
  {
    var lhs := DetailFields(ItemDetailFromResponse(json).value);
    var rhs := map k | k in m && k in DetailKeys :: m[k];
    assert lhs.Keys == rhs.Keys;
  }

  /** `listStockEntries`: `json.data` unchanged when it is an array, the empty list otherwise. */
  function StockEntriesFromResponse(json: Any): (r: seq<Json>)
    ensures AsArray(Get(json, "data")).Some? ==> Get(json, "data") == Some(JArr(r))
    ensures AsArray(Get(json, "data")).None? ==> r == []
  {
    match AsArray(Get(json, "data"))
    case Some(es) => es
    case None => []
  }

  /** `getNormalizedItemsByWarehouse`: the list response normalised with no preferred barcode. */
  function NormalizedItemsByWarehouse(listResponse: Any): (r: Result<seq<Normalize.Item>>)
    ensures r.Ok? ==> |r.value| == |Normalize.RawItems(listResponse)|
    ensures r.Ok? ==> forall k :: 0 <= k < |r.value| ==>
      r.value[k].raw == Normalize.RawItems(listResponse)[k]
      && Normalize.DisplayUom(r.value[k].raw, None) == Ok(r.value[k].uom)
  {
    var r := Normalize.NormalizeItemsFromResponse(listResponse, None);
    if r.Ok? then
      Normalize.NormalizeAllSpec(Normalize.RawItems(listResponse), None);
      r
    else r
  }

  // ---------------------------------------------------------------------------
  // Form bodies

  datatype CreateStockPayload = CreateStockPayload(
    itemId: string, uom: string, qty: int, warehouse: string, barcode: string, shelf: string,
    dateTime: Option<string>)

  /** `qty: number | string` */
  datatype Quantity = Number(n: int) | Text(s: string)

  /** `String(qty)` */
  function QuantityText(q: Quantity): string
  {
    match q
    case Number(n) => IntToDecimal(n)
    case Text(s) => s
  }

  datatype UpdateStockPayload = UpdateStockPayload(
    entryId: string, warehouse: string, barcode: string, shelf: string, date: string,
    itemCode: string, uom: string, qty: Quantity)

  /** Whether `if (payload.date_time)` holds. */
  predicate HasDateTime(p: CreateStockPayload)
  {
    p.dateTime.Some? && p.dateTime.value != ""
  }

  /**
   * The body of `createStockEntry`: `item_id`, `uom`, `qty` (as decimal text),
   * `warehouse`, `barcode`, `shelf`, and `date_time` last, only when present
   * and non-empty.
   */
  method CreateStockEntryBody(p: CreateStockPayload) returns (body: seq<Field>)
    ensures body == [("item_id", p.itemId), ("uom", p.uom), ("qty", IntToDecimal(p.qty)),
                     ("warehouse", p.warehouse), ("barcode", p.barcode), ("shelf", p.shelf)]
                    + (if HasDateTime(p) then [("date_time", p.dateTime.value)] else [])
    ensures Names(body) == ["item_id", "uom", "qty", "warehouse", "barcode", "shelf"]
                           + (if HasDateTime(p) then ["date_time"] else [])
    ensures Lookup(body, "qty").Some? && ParseDecimal(Lookup(body, "qty").value) == Some(p.qty)
    ensures !HasDateTime(p) ==> Lookup(body, "date_time") == None
  {
    var b := new SearchParams();
    b.Append("item_id", p.itemId);
    b.Append("uom", p.uom);
    b.Append("qty", IntToDecimal(p.qty));
    b.Append("warehouse", p.warehouse);
    b.Append("barcode", p.barcode);
    b.Append("shelf", p.shelf);
    if p.dateTime.Some? && p.dateTime.value != "" {
      b.Append("date_time", p.dateTime.value);
    }
    body := b.entries;
    CreateBodyFacts(p, body);
  }

  lemma CreateBodyFacts(p: CreateStockPayload, body: seq<Field>)
    requires body == [("item_id", p.itemId), ("uom", p.uom), ("qty", IntToDecimal(p.qty)),
                      ("warehouse", p.warehouse), ("barcode", p.barcode), ("shelf", p.shelf)]
                     + (if HasDateTime(p) then [("date_time", p.dateTime.value)] else [])
    ensures Names(body) == ["item_id", "uom", "qty", "warehouse", "barcode", "shelf"]
                           + (if HasDateTime(p) then ["date_time"] else [])
    ensures Lookup(body, "qty").Some? && ParseDecimal(Lookup(body, "qty").value) == Some(p.qty)
    ensures !HasDateTime(p) ==> Lookup(body, "date_time") == None
  {
    var fixed := [("item_id", p.itemId), ("uom", p.uom), ("qty", IntToDecimal(p.qty)),
                  ("warehouse", p.warehouse), ("barcode", p.barcode), ("shelf", p.shelf)];
    var names := ["item_id", "uom", "qty", "warehouse", "barcode", "shelf"];
    if HasDateTime(p) {
      assert body == fixed + [("date_time", p.dateTime.value)];
      assert Names(body) == names + ["date_time"];
    } else {
      assert body == fixed;
      assert Names(body) == names;
      LookupAbsent(body, "date_time");
    }
    assert body[0].0 != "qty" && body[1].0 != "qty";
    LookupFirst(body, 2);
    DecimalRoundTrip(p.qty);
  }

  /**
   * The body of `updateStockEntry`: exactly eight fields in the order
   * `entry_id`, `warehouse`, `barcode`, `shelf`, `date`, `item_code`, `uom`,
   * `qty`, with `qty` converted to text.
   */
  method UpdateStockEntryBody(p: UpdateStockPayload) returns (body: seq<Field>)
    ensures body == [("entry_id", p.entryId), ("warehouse", p.warehouse), ("barcode", p.barcode),
                     ("shelf", p.shelf), ("date", p.date), ("item_code", p.itemCode), ("uom", p.uom),
                     ("qty", QuantityText(p.qty))]
    ensures Names(body) == ["entry_id", "warehouse", "barcode", "shelf", "date", "item_code", "uom", "qty"]
    ensures Lookup(body, "qty") == Some(QuantityText(p.qty))
    ensures p.qty.Number? ==> ParseDecimal(QuantityText(p.qty)) == Some(p.qty.n)
  {
    var b := new SearchParams();
    b.Append("entry_id", p.entryId);
    b.Append("warehouse", p.warehouse);
    b.Append("barcode", p.barcode);
    b.Append("shelf", p.shelf);
    b.Append("date", p.date);
    b.Append("item_code", p.itemCode);
    b.Append("uom", p.uom);
    b.Append("qty", QuantityText(p.qty));
    body := b.entries;
    UpdateBodyFacts(p, body);
  }

  lemma UpdateBodyFacts(p: UpdateStockPayload, body: seq<Field>)
    requires body == [("entry_id", p.entryId), ("warehouse", p.warehouse), ("barcode", p.barcode),
                      ("shelf", p.shelf), ("date", p.date), ("item_code", p.itemCode), ("uom", p.uom),
                      ("qty", QuantityText(p.qty))]
    ensures Names(body) == ["entry_id", "warehouse", "barcode", "shelf", "date", "item_code", "uom", "qty"]
    ensures Lookup(body, "qty") == Some(QuantityText(p.qty))
    ensures p.qty.Number? ==> ParseDecimal(QuantityText(p.qty)) == Some(p.qty.n)
  {
    assert forall j :: 0 <= j < 7 ==> body[j].0 != "qty";
    LookupFirst(body, 7);
    if p.qty.Number? {
      DecimalRoundTrip(p.qty.n);
    }
  }

  // ---------------------------------------------------------------------------
  // Deleting a stock entry

  /** The DELETE request: the entry id in a JSON body. */
  datatype DeleteRequest = DeleteRequest(url: string, data: map<string, string>, contentType: string)

  /** What the request produced: a response body, or an axios error with the response body (if any) and the error's message. */
  datatype DeleteTransport =
    | Responded(data: Any)
    | Failed(responseData: Any, errorMessage: string)

  const MissingIdMessage := "deleteStockEntry requires entry_id"
  const NoDataMessage := "No response data from server"
  const DeleteFallbackMessage := "Failed to delete entry"

  /** The request `deleteStockEntry` sends, or the error it throws before sending any. */
  function DeleteStockEntryRequest(entryId: string): (r: Result<DeleteRequest>)
    ensures r.Err? <==> entryId == ""
    ensures r.Err? ==> r.error == MissingIdMessage
    ensures r.Ok? ==> r.value.url == DeleteEntryPath && r.value.data == map["entry_id" := entryId]
  {
    if entryId == "" then Err(MissingIdMessage)
    else Ok(DeleteRequest(DeleteEntryPath, map["entry_id" := entryId], "application/json"))
  }

  /** `{ status: 'error', message }` */
  function ErrorObject(message: Json): Json
  {
    JObj(map["status" := JStr("error"), "message" := message])
  }

  /** `error.response?.data?.message || error.message || 'Failed to delete entry'` */
  function DeleteErrorMessage(responseData: Any, errorMessage: string): Json
  {
    Or(Or(Get(responseData, "message"), Some(JStr(errorMessage))), Some(JStr(DeleteFallbackMessage))).value
  }

  /** The value `deleteStockEntry` resolves to once the request was sent. */
  function DeleteStockEntryOutcome(t: DeleteTransport): (r: Json)
    ensures t.Responded? && Truthy(t.data) ==> r == t.data.value
    ensures t.Failed? || !Truthy(t.data) ==>
      r.JObj? && r.fields.Keys == {"status", "message"} && r.fields["status"] == JStr("error")
  {
    match t
    case Responded(data) => if !Truthy(data) then ErrorObject(JStr(NoDataMessage)) else data.value
    case Failed(responseData, errorMessage) => ErrorObject(DeleteErrorMessage(responseData, errorMessage))
  }

  /** `deleteStockEntry(entry_id)`: throws for an empty id, otherwise resolves to the outcome of its request. */
  function DeleteStockEntry(entryId: string, t: DeleteTransport): Result<Json>
  {
    match DeleteStockEntryRequest(entryId)
    case Err(e) => Err(e)
    case Ok(_) => Ok(DeleteStockEntryOutcome(t))
  }

  /**
   * `deleteStockEntry` throws exactly for an empty id, whatever the server
   * would have answered; a response without data becomes an error result with
   * the message "No response data from server"; a response with data is
   * passed through unchanged.
   */
  lemma DeleteOutcomes(entryId: string, t: DeleteTransport)
    ensures DeleteStockEntry(entryId, t).Err? <==> entryId == ""
    ensures entryId != "" && t.Responded? && !Truthy(t.data) ==>
      DeleteStockEntry(entryId, t) == Ok(ErrorObject(JStr(NoDataMessage)))
    ensures entryId != "" && t.Responded? && Truthy(t.data) ==> DeleteStockEntry(entryId, t) == Ok(t.data.value)
  {
  }

  /**
   * A failed request resolves to an error result whose message is the
   * server's message when truthy, else the error's own message when
   * non-empty, else "Failed to delete entry"; the message is never falsy.
   */
  lemma DeleteFailureMessage(responseData: Any, errorMessage: string)
    ensures var m := DeleteStockEntryOutcome(Failed(responseData, errorMessage));
      && m.JObj? && m.fields.Keys == {"status", "message"} && m.fields["status"] == JStr("error")
      && Truthy(Some(m.fields["message"]))
      && (Truthy(Get(responseData, "message")) ==> m.fields["message"] == Get(responseData, "message").value)
      && (!Truthy(Get(responseData, "message")) && errorMessage != "" ==> m.fields["message"] == JStr(errorMessage))
      && (!Truthy(Get(responseData, "message")) && errorMessage == "" ==> m.fields["message"] == JStr(DeleteFallbackMessage))
  {
  }
}
