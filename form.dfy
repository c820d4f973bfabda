/**
 * Request parameters: the `URLSearchParams` form body that the client fills
 * field by field with `append`, and the lookups the server side performs on it.
 * Percent-encoding of the serialised body is not modelled.
 */
module Form {
  import opened Js

  type Field = (string, string)

  /** A `URLSearchParams` object: an ordered list of name/value pairs. */
  class SearchParams {
    var entries: seq<Field>

    /** `new URLSearchParams()` */
    constructor ()
      ensures entries == []
    {
      entries := [];
    }

    /** `body.append(name, value)` adds a pair at the end. */
    method Append(name: string, value: string)
      modifies this
      ensures entries == old(entries) + [(name, value)]
    {
      entries := entries + [(name, value)];
    }
  }

  /** The field names of a body, in order. */
  function Names(body: seq<Field>): (r: seq<string>)
    ensures |r| == |body|
    ensures forall k :: 0 <= k < |body| ==> r[k] == body[k].0
  {
    if body == [] then [] else [body[0].0] + Names(body[1..])
  }

  /** `params.get(name)`: the value of the first pair with that name. */
  function Lookup(body: seq<Field>, name: string): Option<string>
  {
    if body == [] then None
    else if body[0].0 == name then Some(body[0].1)
    else Lookup(body[1..], name)
  }

  /** Looking a name up finds the value of its first occurrence. */
  lemma {:induction false} LookupFirst(body: seq<Field>, k: nat)
    requires k < |body|
    requires forall j :: 0 <= j < k ==> body[j].0 != body[k].0
    ensures Lookup(body, body[k].0) == Some(body[k].1)
  {
    if k > 0 {
      LookupFirst(body[1..], k - 1);
    }
  }

  /** A name that no pair carries is not found. */
  lemma {:induction false} LookupAbsent(body: seq<Field>, name: string)
    requires forall k :: 0 <= k < |body| ==> body[k].0 != name
    ensures Lookup(body, name) == None
  {
    if body != [] {
      LookupAbsent(body[1..], name);
    }
  }
}
