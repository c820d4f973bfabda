/**
 * lib/api.ts: `getItems`, a `fetch` of the item endpoint with an optional
 * barcode query and an optional bearer token, and `getNormalizedItems`. The
 * network call is not modelled: its response enters as a value.
 */
module FetchItems {
  import opened Js
  import Form
  import Normalize

  const GetItemsUrl := "https://aysha.erpgulf.com/api/method/stocker.stocker.api.get_items"
  const GuestCookie := "full_name=Guest; sid=Guest; system_user=no; user_id=Guest; user_image="
  const ErrorPrefix := "getItems failed: "

  /** A `fetch` GET request: the URL without its query, the query parameters and the headers in order. */
  datatype FetchRequest = FetchRequest(url: string, query: map<string, string>, headers: seq<Form.Field>)

  /** A `fetch` response: `body` is what `res.json()` yields, `None` when the text is not JSON. */
  datatype FetchResponse = FetchResponse(ok: bool, status: int, statusText: string, text: string, body: Option<Json>)

  /** Whether `token` is truthy. */
  predicate HasToken(token: Option<string>)
  {
    token.Some? && token.value != ""
  }

  /**
   * The request `getItems(barcode, token)` sends: `barcode` is set only when
   * it is not blank, to its trimmed value; `Authorization` is present only
   * for a truthy token, and then is `Bearer <token>`.
   */
  method GetItemsRequest(barcode: Option<string>, token: Option<string>) returns (req: FetchRequest)
    ensures req.url == GetItemsUrl
    ensures "barcode" in req.query <==> NonBlankOpt(barcode)
    ensures "barcode" in req.query ==> req.query["barcode"] == Trim(barcode.value)
    ensures req.query.Keys <= {"barcode"}
    ensures Form.Lookup(req.headers, "Authorization") == (if HasToken(token) then Some("Bearer " + token.value) else None)
    ensures Form.Lookup(req.headers, "Cookie") == Some(GuestCookie)
    ensures Form.Lookup(req.headers, "Content-Type") == Some("application/x-www-form-urlencoded")
  {
    var searchParams: map<string, string> := map[];
    if barcode.Some? && barcode.value != "" && |Trim(barcode.value)| > 0 {
      searchParams := searchParams["barcode" := Trim(barcode.value)];
    }
    var headers: seq<Form.Field> := [("Content-Type", "application/x-www-form-urlencoded")];
    if token.Some? && token.value != "" {
      headers := headers + [("Authorization", "Bearer " + token.value)];
    }
    headers := headers + [("Cookie", GuestCookie)];
    req := FetchRequest(GetItemsUrl, searchParams, headers);
    assert forall j :: 0 <= j < |headers| - 1 ==> headers[j].0 != "Cookie";
    Form.LookupFirst(headers, |headers| - 1);
    if !HasToken(token) {
      Form.LookupAbsent(req.headers, "Authorization");
    }
  }

  /** The error message `getItems` throws for a response that is not ok. */
  function FailureMessage(res: FetchResponse): string
  {
    ErrorPrefix + IntToDecimal(res.status) + " " + res.statusText + " - " + res.text
  }

  /** What `getItems` resolves to once the response arrived, or the error it throws. */
  function GetItemsOutcome(res: FetchResponse): (r: Result<Any>)
    ensures r.Err? <==> !res.ok || res.body.None?
    ensures r.Ok? ==> r.value == res.body
  {
    if !res.ok then Err(FailureMessage(res))
    else if res.body.None? then Err("SyntaxError")
    else Ok(res.body)
  }

  /**
   * A response that is not ok makes `getItems` throw, with a message that
   * contains the decimal HTTP status, which reads back as that status.
   */
  lemma FailureCarriesStatus(res: FetchResponse)
    requires !res.ok
    ensures GetItemsOutcome(res).Err?
    ensures var msg := GetItemsOutcome(res).error;
      var d := IntToDecimal(res.status);
      |ErrorPrefix| + |d| <= |msg| && msg[|ErrorPrefix|..|ErrorPrefix| + |d|] == d
      && ParseDecimal(msg[|ErrorPrefix|..|ErrorPrefix| + |d|]) == Some(res.status)
  {
    var d := IntToDecimal(res.status);
    var msg := FailureMessage(res);
    assert msg == ErrorPrefix + d + (" " + res.statusText + " - " + res.text);
    assert msg[|ErrorPrefix|..|ErrorPrefix| + |d|] == d;
    DecimalRoundTrip(res.status);
  }

  /** `getNormalizedItems(barcode, token)`: the response of `getItems`, normalised preferring the queried barcode. */
  function GetNormalizedItems(barcode: Option<string>, res: FetchResponse): (r: Result<seq<Normalize.Item>>)
    ensures !res.ok || res.body.None? ==> r.Err?
    ensures r.Ok? ==> res.ok && |r.value| == |Normalize.RawItems(res.body)|
  {
    match GetItemsOutcome(res)
    case Err(e) => Err(e)
    case Ok(json) => Normalize.NormalizeItemsFromResponse(json, barcode)
  }

  /**
   * `getNormalizedItems` prefers exactly the barcode it queried with: the
   * display UOM of each item is the one its preferred-barcode rule gives for
   * that barcode, and the outputs follow the raw items in order.
   */
  lemma NormalizedItemsUseQueriedBarcode(barcode: Option<string>, res: FetchResponse)
    requires GetNormalizedItems(barcode, res).Ok?
    ensures res.ok && res.body.Some?
    ensures var out := GetNormalizedItems(barcode, res).value;
      var raw := Normalize.RawItems(res.body);
      |out| == |raw| &&
      forall k :: 0 <= k < |out| ==> out[k].raw == raw[k] && Normalize.DisplayUom(raw[k], barcode) == Ok(out[k].uom)
  {
    Normalize.NormalizeAllSpec(Normalize.RawItems(res.body), barcode);
  }
}
