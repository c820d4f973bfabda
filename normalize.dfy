/**
 * `normalizeItemsFromResponse`, which lib/api.ts and lib/api/items.ts define
 * with the same body: it flattens the item groups of a list response into one
 * list of display items, choosing a display unit of measure for each.
 */
module Normalize {
  import opened Js

  /** One display item: the fields copied from the raw item, the chosen UOM, the quantity and the raw item itself. */
  datatype Item = Item(itemCode: Any, itemName: Any, description: Any, uom: Any, qty: Json, raw: Json)

  const TypeError := "TypeError"

  /** `json?.data ?? json?.message ?? []` */
  function GroupSource(json: Any): Any
  {
    Coalesce(Coalesce(Get(json, "data"), Get(json, "message")), Some(JArr([])))
  }

  /** `Array.isArray(g?.items) ? g.items : []` */
  function GroupItems(g: Json): seq<Json>
  {
    match AsArray(Get(Some(g), "items"))
    case Some(xs) => xs
    case None => []
  }

  /** `groups.flatMap(...)` */
  function Flatten(groups: seq<Json>): seq<Json>
  {
    if groups == [] then [] else GroupItems(groups[0]) + Flatten(groups[1..])
  }

  /** The raw items the response carries, in order. */
  function RawItems(json: Any): seq<Json>
  {
    match AsArray(GroupSource(json))
    case Some(groups) => Flatten(groups)
    case None => []
  }

  /**
   * `(u?.barcode || '').trim()`: throws when the barcode is a truthy value that
   * is not a string (it has no `trim` method).
   */
  function BarcodeKey(u: Json): Result<string>
  {
    match Or(Get(Some(u), "barcode"), Some(JStr("")))
    case Some(JStr(s)) => Ok(Trim(s))
    case _ => Err(TypeError)
  }

  /** `us.find((u) => (u?.barcode || '').trim() === target)`: the first matching entry. */
  function FindByBarcode(us: seq<Json>, target: string): (r: Result<Option<Json>>)
    ensures r.Ok? && r.value.Some? ==> r.value.value in us && BarcodeKey(r.value.value) == Ok(target)
    ensures r.Err? ==> exists u :: u in us && BarcodeKey(u).Err?
  {
    if us == [] then Ok(None)
    else
      match BarcodeKey(us[0])
      case Err(e) => Err(e)
      case Ok(key) => if key == target then Ok(Some(us[0])) else FindByBarcode(us[1..], target)
  }

  /** Whether `preferBarcode` is truthy. */
  predicate Prefers(preferBarcode: Option<string>)
  {
    preferBarcode.Some? && preferBarcode.value != ""
  }

  /** The display UOM (`displayUom` at line 73 of lib/api.ts), or the error it throws. */
  function DisplayUom(it: Json, preferBarcode: Option<string>): (r: Result<Any>)
    ensures r.Err? ==> Prefers(preferBarcode)
    ensures AsArray(Get(Some(it), "uom")).None? ==> r == Ok(None)
    ensures r.Ok? && r.value.Some? ==>
      exists u :: u in AsArray(Get(Some(it), "uom")).value && Get(Some(u), "uom") == r.value
  {
    var uoms := AsArray(Get(Some(it), "uom"));
    var fromMatch: Result<Any> :=
      if Prefers(preferBarcode) && uoms.Some? then
        match FindByBarcode(uoms.value, Trim(preferBarcode.value))
        case Err(e) => Err(e)
        case Ok(m) => Ok(Coalesce(Get(m, "uom"), None))
      else Ok(None);
    match fromMatch
    case Err(e) => Err(e)
    case Ok(d) =>
      if !Truthy(d) && uoms.Some? && |uoms.value| > 0 then Ok(Get(Some(uoms.value[0]), "uom"))
      else Ok(d)
  }

  /** The mapping callback for one raw item; reading a field of `null` throws. */
  function NormalizeItem(it: Json, preferBarcode: Option<string>): Result<Item>
  {
    match DisplayUom(it, preferBarcode)
    case Err(e) => Err(e)
    case Ok(uom) =>
      if it == JNull then Err(TypeError)
      else
        var qty := Coalesce(Get(Some(it), "qty"), Some(JNum(0)));
        Ok(Item(Get(Some(it), "item_code"), Get(Some(it), "item_name"), Get(Some(it), "description"),
                uom, qty.value, it))
  }

  /** `items.map(...)`: stops at the first item whose callback throws. */
  function NormalizeAll(items: seq<Json>, preferBarcode: Option<string>): Result<seq<Item>>
  {
    if items == [] then Ok([])
    else
      match NormalizeItem(items[0], preferBarcode)
      case Err(e) => Err(e)
      case Ok(x) =>
        match NormalizeAll(items[1..], preferBarcode)
        case Err(e) => Err(e)
        case Ok(rest) => Ok([x] + rest)
  }

  /** `normalizeItemsFromResponse(json, preferBarcode)` */
  function NormalizeItemsFromResponse(json: Any, preferBarcode: Option<string>): (r: Result<seq<Item>>)
    ensures r.Ok? ==> |r.value| == |RawItems(json)|
    ensures r.Ok? ==> forall k :: 0 <= k < |r.value| ==> r.value[k].raw == RawItems(json)[k] && RawItems(json)[k] != JNull
  {
    if NormalizeAll(RawItems(json), preferBarcode).Ok? then NormalizeAllSpec(RawItems(json), preferBarcode); NormalizeAll(RawItems(json), preferBarcode)
    else NormalizeAll(RawItems(json), preferBarcode)
  }

  // ---------------------------------------------------------------------------
  // Where the groups come from

  /**
   * The groups are taken from `data` when it is neither null nor undefined,
   * otherwise from `message`, otherwise there are none; a source that is not
   * an array yields no items.
   */
  lemma GroupSourcePriority(json: Any)
    ensures !Nullish(Get(json, "data")) ==> GroupSource(json) == Get(json, "data")
    ensures Nullish(Get(json, "data")) && !Nullish(Get(json, "message")) ==> GroupSource(json) == Get(json, "message")
    ensures Nullish(Get(json, "data")) && Nullish(Get(json, "message")) ==> RawItems(json) == []
    ensures AsArray(GroupSource(json)).None? ==> RawItems(json) == []
  {
  }

  // ---------------------------------------------------------------------------
  // Flattening keeps every item of every array-valued group, in order

  /** The total number of items over the groups whose `items` is an array. */
  function TotalItems(groups: seq<Json>): nat
  {
    if groups == [] then 0 else |GroupItems(groups[0])| + TotalItems(groups[1..])
  }

  lemma {:induction false} FlattenLength(groups: seq<Json>)
    ensures |Flatten(groups)| == TotalItems(groups)
  {
    if groups != [] {
      FlattenLength(groups[1..]);
    }
  }

  /** Flattening distributes over concatenation: the order of groups is the order of items. */
  lemma {:induction false} FlattenAppend(a: seq<Json>, b: seq<Json>)
    ensures Flatten(a + b) == Flatten(a) + Flatten(b)
  {
    if a == [] {
      assert a + b == b;
    } else {
      assert (a + b)[1..] == a[1..] + b;
      FlattenAppend(a[1..], b);
    }
  }

  /** A group without an `items` array contributes nothing; one with an array contributes exactly it. */
  lemma FlattenSingle(g: Json)
    ensures Flatten([g]) == GroupItems(g)
    ensures AsArray(Get(Some(g), "items")).None? ==> Flatten([g]) == []
  {
    assert [g][1..] == [];
  }

  // ---------------------------------------------------------------------------
  // The result: one entry per raw item, in order

  /**
   * When normalisation succeeds, there is exactly one output per raw item, in
   * the same order; each carries its raw item, its copied fields, a quantity
   * defaulting to 0, and its display UOM.
   */
  lemma {:induction false} NormalizeAllSpec(items: seq<Json>, preferBarcode: Option<string>)
    requires NormalizeAll(items, preferBarcode).Ok?
    ensures |NormalizeAll(items, preferBarcode).value| == |items|
    ensures forall k :: 0 <= k < |items| ==>
      var out := NormalizeAll(items, preferBarcode).value[k];
      && NormalizeItem(items[k], preferBarcode) == Ok(out)
      && out.raw == items[k]
      && items[k] != JNull
      && out.itemCode == Get(Some(items[k]), "item_code")
      && out.itemName == Get(Some(items[k]), "item_name")
      && out.description == Get(Some(items[k]), "description")
      && out.qty == (if Nullish(Get(Some(items[k]), "qty")) then JNum(0) else Get(Some(items[k]), "qty").value)
      && DisplayUom(items[k], preferBarcode) == Ok(out.uom)
  {
    if items != [] {
      NormalizeAllSpec(items[1..], preferBarcode);
      var r := NormalizeAll(items, preferBarcode).value;
      forall k | 0 <= k < |items|
        ensures NormalizeItem(items[k], preferBarcode) == Ok(r[k])
      {
        if k > 0 {
          assert items[k] == items[1..][k - 1];
        }
      }
    }
  }

  /** Normalisation fails exactly when the callback throws for some raw item. */
  lemma {:induction false} NormalizeAllFails(items: seq<Json>, preferBarcode: Option<string>)
    ensures NormalizeAll(items, preferBarcode).Err? <==>
      exists k :: 0 <= k < |items| && NormalizeItem(items[k], preferBarcode).Err?
  {
    if items != [] {
      NormalizeAllFails(items[1..], preferBarcode);
      if NormalizeItem(items[0], preferBarcode).Ok? && NormalizeAll(items[1..], preferBarcode).Ok? {
        forall k | 0 <= k < |items| ensures NormalizeItem(items[k], preferBarcode).Ok? {
          if k > 0 { assert items[k] == items[1..][k - 1]; }
        }
      } else if NormalizeAll(items[1..], preferBarcode).Err? {
        var k :| 0 <= k < |items[1..]| && NormalizeItem(items[1..][k], preferBarcode).Err?;
        assert items[k + 1] == items[1..][k];
      }
    }
  }

  /**
   * The output length of a successful normalisation is the total number of
   * items over the groups whose `items` is an array, and the outputs follow
   * the raw items in order.
   */
  lemma NormalizeLength(json: Any, preferBarcode: Option<string>)
    requires NormalizeItemsFromResponse(json, preferBarcode).Ok?
    ensures AsArray(GroupSource(json)).Some? ==>
      |NormalizeItemsFromResponse(json, preferBarcode).value| == TotalItems(AsArray(GroupSource(json)).value)
    ensures AsArray(GroupSource(json)).None? ==> NormalizeItemsFromResponse(json, preferBarcode).value == []
    ensures |NormalizeItemsFromResponse(json, preferBarcode).value| == |RawItems(json)|
    ensures forall k :: 0 <= k < |RawItems(json)| ==> NormalizeItemsFromResponse(json, preferBarcode).value[k].raw == RawItems(json)[k]
  {
    NormalizeAllSpec(RawItems(json), preferBarcode);
    if AsArray(GroupSource(json)).Some? {
      FlattenLength(AsArray(GroupSource(json)).value);
    }
  }

  // ---------------------------------------------------------------------------
  // The display UOM

  /** `find` returns the first entry whose key equals the target, after entries whose keys all differ. */
  lemma {:induction false} FindFirstMatch(us: seq<Json>, target: string, k: nat)
    requires k < |us|
    requires forall j :: 0 <= j < k ==> BarcodeKey(us[j]).Ok? && BarcodeKey(us[j]).value != target
    requires BarcodeKey(us[k]) == Ok(target)
    ensures FindByBarcode(us, target) == Ok(Some(us[k]))
  {
    if k > 0 {
      FindFirstMatch(us[1..], target, k - 1);
    }
  }

  /** `find` returns undefined when every entry's key differs from the target. */
  lemma {:induction false} FindNoMatch(us: seq<Json>, target: string)
    requires forall j :: 0 <= j < |us| ==> BarcodeKey(us[j]).Ok? && BarcodeKey(us[j]).value != target
    ensures FindByBarcode(us, target) == Ok(None)
  {
    if us != [] {
      FindNoMatch(us[1..], target);
    }
  }

  /** `find` throws exactly at the first entry whose barcode is a truthy non-string, reached before any match. */
  lemma {:induction false} FindThrows(us: seq<Json>, target: string, k: nat)
    requires k < |us|
    requires forall j :: 0 <= j < k ==> BarcodeKey(us[j]).Ok? && BarcodeKey(us[j]).value != target
    requires BarcodeKey(us[k]).Err?
    ensures FindByBarcode(us, target).Err?
  {
    if k > 0 {
      FindThrows(us[1..], target, k - 1);
    }
  }

  /**
   * With a preferred barcode, the display UOM is the UOM of the first entry
   * whose trimmed barcode equals the trimmed preferred barcode, when that UOM
   * is truthy.
   */
  lemma UomFromMatchingBarcode(it: Json, preferBarcode: Option<string>, us: seq<Json>, k: nat)
    requires Prefers(preferBarcode)
    requires Get(Some(it), "uom") == Some(JArr(us))
    requires k < |us|
    requires forall j :: 0 <= j < k ==> BarcodeKey(us[j]).Ok? && BarcodeKey(us[j]).value != Trim(preferBarcode.value)
    requires BarcodeKey(us[k]) == Ok(Trim(preferBarcode.value))
    requires Truthy(Get(Some(us[k]), "uom"))
    ensures DisplayUom(it, preferBarcode) == Ok(Get(Some(us[k]), "uom"))
  {
    FindFirstMatch(us, Trim(preferBarcode.value), k);
  }

  /**
   * Without a preferred barcode, or when no entry matches it, the display UOM
   * is that of the first entry.
   */
  lemma UomFromFirstEntry(it: Json, preferBarcode: Option<string>, us: seq<Json>)
    requires Get(Some(it), "uom") == Some(JArr(us))
    requires |us| > 0
    requires Prefers(preferBarcode) ==>
      forall j :: 0 <= j < |us| ==> BarcodeKey(us[j]).Ok? && BarcodeKey(us[j]).value != Trim(preferBarcode.value)
    ensures DisplayUom(it, preferBarcode) == Ok(Get(Some(us[0]), "uom"))
  {
    if Prefers(preferBarcode) {
      FindNoMatch(us, Trim(preferBarcode.value));
    }
  }

  /** An item whose `uom` is not a non-empty array has no display UOM. */
  lemma UomAbsent(it: Json, preferBarcode: Option<string>)
    requires AsArray(Get(Some(it), "uom")).None? || AsArray(Get(Some(it), "uom")) == Some([])
    ensures DisplayUom(it, preferBarcode) == Ok(None)
  {
    if Prefers(preferBarcode) && AsArray(Get(Some(it), "uom")).Some? {
      assert FindByBarcode([], Trim(preferBarcode.value)) == Ok(None);
    }
  }

  /**
   * A preferred barcode that is white space only (truthy, but empty once
   * trimmed) selects the first entry that has no barcode at all.
   */
  lemma BlankPreferenceMatchesMissingBarcode(p: string, us: seq<Json>, k: nat)
    requires p != "" && AllSpace(p)
    requires k < |us|
    requires Get(Some(us[k]), "barcode") == None
    requires forall j :: 0 <= j < k ==> Get(Some(us[j]), "barcode").Some? && Get(Some(us[j]), "barcode").value.JStr?
                                        && Trim(Get(Some(us[j]), "barcode").value.s) != ""
    ensures Prefers(Some(p)) && Trim(p) == ""
    ensures FindByBarcode(us, Trim(p)) == Ok(Some(us[k]))
  {
    NonBlankIff(p);
    assert Trim("") == "";
    FindFirstMatch(us, Trim(p), k);
  }

  /**
   * When the first matching entry's UOM is falsy (null, missing or ""), the
   * display UOM falls back to that of the first entry.
   */
  lemma UomFalsyMatchFallsBack(it: Json, preferBarcode: Option<string>, us: seq<Json>, k: nat)
    requires Prefers(preferBarcode)
    requires Get(Some(it), "uom") == Some(JArr(us))
    requires k < |us|
    requires forall j :: 0 <= j < k ==> BarcodeKey(us[j]).Ok? && BarcodeKey(us[j]).value != Trim(preferBarcode.value)
    requires BarcodeKey(us[k]) == Ok(Trim(preferBarcode.value))
    requires !Truthy(Get(Some(us[k]), "uom"))
    ensures DisplayUom(it, preferBarcode) == Ok(Get(Some(us[0]), "uom"))
  {
    FindFirstMatch(us, Trim(preferBarcode.value), k);
  }
}
