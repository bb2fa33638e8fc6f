// The handful of zod rules the request schemas use, over a JSON request body
// (or query object): a field is absent, or present with some JSON value.
// Lengths are counted in characters.
module Zod {
  import opened Common

  type Body = map<string, Json>

  /** `schema.safeParse(body)`: the parsed output, or a rejection. */
  datatype Parsed<T> = Accepted(value: T) | Rejected

  predicate IsStr(body: Body, k: string) { k in body && body[k].JStr? }

  function Str(body: Body, k: string): string
    requires IsStr(body, k)
  {
    body[k].s
  }

  /** `z.string().min(lo)` (and `.max(hi)` when given) on a present field. */
  predicate StrWithin(body: Body, k: string, lo: nat, hi: Option<nat>)
  {
    IsStr(body, k) && lo <= |Str(body, k)| && (hi.Some? ==> |Str(body, k)| <= hi.value)
  }

  /** The same rule made `.optional()`: an absent field passes. */
  predicate OptStrWithin(body: Body, k: string, lo: nat, hi: Option<nat>)
  {
    k !in body || StrWithin(body, k, lo, hi)
  }

  /** An optional string field's output: absent stays absent. */
  function OptStr(body: Body, k: string): (r: Option<string>)
    requires k !in body || IsStr(body, k)
    ensures r.None? <==> k !in body
    ensures r.Some? ==> r.value == body[k].s
  {
    if k in body then Some(body[k].s) else None
  }

  /** `z.boolean().optional()`. */
  predicate OptBoolOk(body: Body, k: string) { k !in body || body[k].JBool? }

  function OptBool(body: Body, k: string): (r: Option<bool>)
    requires OptBoolOk(body, k)
    ensures r.None? <==> k !in body
    ensures r.Some? ==> body[k] == JBool(r.value)
  {
    if k in body then Some(body[k].b) else None
  }

  /** An optional output field carries the body's own text: present exactly
      when the key is, and then holding that key's string. */
  predicate CarriesStr(o: Option<string>, body: Body, k: string)
  {
    (o.Some? <==> k in body) && (o.Some? ==> body[k] == JStr(o.value))
  }

  /** The same for an optional boolean field. */
  predicate CarriesBool(o: Option<bool>, body: Body, k: string)
  {
    (o.Some? <==> k in body) && (o.Some? ==> body[k] == JBool(o.value))
  }

  /** The keys of zod's output object: the schema's keys present in the body
      (unknown keys are stripped). `.refine(keys > 0)` tests this set. */
  function PresentKeys(body: Body, known: set<string>): (ks: set<string>)
    ensures forall k :: k in ks <==> k in body && k in known
  {
    body.Keys * known
  }
}
