// The admin panel's `useApi` hook: the query string `buildQuery` makes from
// a parameter record, and the URL, method and body each helper hands to
// `fetchWithAuth`. Percent-encoding (`encodeURIComponent`, section 2.1 of
// RFC 3986) is the parameter `enc`.
module ApiHooks {
  import opened Common
  import Ordering

  /** A record value: text, an integer, `undefined` or `null`. */
  datatype ParamValue = PStr(s: string) | PNum(n: int) | PUndefined | PNull

  /** `Object.entries(params)`, in insertion order. */
  type Params = seq<(string, ParamValue)>

  /** Survives `value !== undefined && value !== null && value !== ""`; 0 does. */
  predicate Kept(v: ParamValue) { !(v.PUndefined? || v.PNull? || v == PStr("")) }

  /** `String(value)`. */
  function ValueText(v: ParamValue): string
    requires Kept(v)
  {
    if v.PStr? then v.s else IntToString(v.n)
  }

  function KeptEntries(ps: Params): (r: Params)
    ensures forall i :: 0 <= i < |r| ==> r[i] in ps && Kept(r[i].1)
    ensures forall i :: 0 <= i < |ps| && Kept(ps[i].1) ==> ps[i] in r
  {
    Ordering.Filter(ps, (e: (string, ParamValue)) => Kept(e.1))
  }

  /** `${enc(key)}=${enc(String(value))}` for every kept entry, in order. */
  function Pairs(ps: Params, enc: string -> string): (r: seq<string>)
    ensures |r| == |KeptEntries(ps)|
    ensures forall i :: 0 <= i < |r| ==>
              r[i] == enc(KeptEntries(ps)[i].0) + "=" + enc(ValueText(KeptEntries(ps)[i].1))
  {
    var ke := KeptEntries(ps);
    seq(|ke|, i requires 0 <= i < |ke| => enc(ke[i].0) + "=" + enc(ValueText(ke[i].1)))
  }

  function BuildQuery(params: Option<Params>, enc: string -> string): (q: string)
  {
    if params.None? then ""
    else
      var query := Join(Pairs(params.value, enc), "&");
      if query != "" then "?" + query else ""
  }

  lemma {:induction false} JoinOfNonEmptyParts(parts: seq<string>, sep: string)
    requires parts != [] && forall i :: 0 <= i < |parts| ==> parts[i] != ""
    ensures Join(parts, sep) != ""
  {
    if |parts| > 1 {
      assert |Join(parts, sep)| >= |parts[0]|;
    }
  }

  /** The query string is empty exactly when there are no params or every
      value was dropped; otherwise it is "?" and the pairs joined by "&". */
  lemma BuildQueryShape(params: Option<Params>, enc: string -> string)
    ensures BuildQuery(params, enc) == "" <==> params.None? || KeptEntries(params.value) == []
    ensures params.Some? && KeptEntries(params.value) != [] ==>
              BuildQuery(params, enc) == "?" + Join(Pairs(params.value, enc), "&")
  {
    if params.Some? && KeptEntries(params.value) != [] {
      var ps := Pairs(params.value, enc);
      forall i | 0 <= i < |ps| ensures ps[i] != "" {
        assert |ps[i]| >= 1;
      }
      JoinOfNonEmptyParts(ps, "&");
    }
  }

  lemma {:induction false} FilterSkipsDropped<T>(a: seq<T>, b: seq<T>, x: T, keep: T -> bool)
    requires !keep(x)
    ensures Ordering.Filter(a + [x] + b, keep) == Ordering.Filter(a + b, keep)
  {
    if a == [] {
      assert a + [x] + b == [x] + b && a + b == b;
      assert ([x] + b)[1..] == b;
    } else {
      assert (a + [x] + b)[1..] == a[1..] + [x] + b;
      assert (a + b)[1..] == a[1..] + b;
      assert (a + [x] + b)[0] == a[0] && (a + b)[0] == a[0];
      FilterSkipsDropped(a[1..], b, x, keep);
    }
  }

  /** Dropped values leave no trace: adding one anywhere changes nothing. */
  lemma DroppedEntryIgnored(a: Params, b: Params, k: string, v: ParamValue, enc: string -> string)
    requires !Kept(v)
    ensures BuildQuery(Some(a + [(k, v)] + b), enc) == BuildQuery(Some(a + b), enc)
  {
    FilterSkipsDropped(a, b, (k, v), (e: (string, ParamValue)) => Kept(e.1));
  }

  /** A zero is sent: `{page: 0}` gives "?page=0" (up to encoding). */
  lemma ZeroIsSent(k: string, enc: string -> string)
    ensures BuildQuery(Some([(k, PNum(0))]), enc) == "?" + enc(k) + "=" + enc("0")
  {
    var ps: Params := [(k, PNum(0))];
    assert KeptEntries(ps) == ps;
    assert Pairs(ps, enc) == [enc(k) + "=" + enc("0")];
  }

  /** With an encoder that escapes "&", splitting the query after its "?"
      on "&" gives back the pairs. */
  lemma QueryPairsRecoverable(params: Params, enc: string -> string)
    requires forall s :: '&' !in enc(s)
    requires KeptEntries(params) != []
    ensures var q := BuildQuery(Some(params), enc);
            q != "" && q[0] == '?' && Split(q[1..], '&') == Pairs(params, enc)
  {
    var ps := Pairs(params, enc);
    BuildQueryShape(Some(params), enc);
    forall i | 0 <= i < |ps| ensures '&' !in ps[i] {
      var e := KeptEntries(params)[i];
      assert ps[i] == enc(e.0) + "=" + enc(ValueText(e.1));
      assert '&' !in enc(e.0) && '&' !in enc(ValueText(e.1));
    }
    var q := BuildQuery(Some(params), enc);
    assert q[1..] == Join(ps, "&");
    SplitJoin(ps, '&');
  }

  /** The `RequestInit` passed along: no verb means GET. */
  datatype Request = Request(url: string, verb: Option<string>, body: Option<string>)

  /** JavaScript truthiness of a body argument (`undefined` is None). */
  predicate BodyTruthy(body: Option<Json>)
  {
    match body
    case None => false
    case Some(j) =>
      match j
      case JNull => false
      case JBool(b) => b
      case JNum(n) => n != 0
      case JStr(s) => s != ""
      case JArr(_) => true
      case JObj(_) => true
  }

  function Get(base: string, path: string, params: Option<Params>, enc: string -> string): (r: Request)
    ensures r.url == base + path + BuildQuery(params, enc) && r.verb.None? && r.body.None?
  {
    Request(base + path + BuildQuery(params, enc), None, None)
  }

  /** `post` (verb POST) and `put` (verb PUT): `stringify` is `JSON.stringify`;
      a falsy body is not sent. */
  function Send(verb: string, base: string, path: string, body: Option<Json>, stringify: Json -> string): (r: Request)
    ensures r.url == base + path && r.verb == Some(verb)
    ensures r.body.Some? <==> BodyTruthy(body)
    ensures r.body.Some? ==> r.body.value == stringify(body.value)
  {
    Request(base + path, Some(verb), if BodyTruthy(body) then Some(stringify(body.value)) else None)
  }

  function Del(base: string, path: string): (r: Request)
    ensures r.url == base + path && r.verb == Some("DELETE") && r.body.None?
  {
    Request(base + path, Some("DELETE"), None)
  }

  /** `0`, `""`, `false` and `null` bodies are silently dropped. */
  lemma FalsyBodiesDropped(base: string, path: string, stringify: Json -> string)
    ensures Send("POST", base, path, Some(JNum(0)), stringify).body.None?
    ensures Send("POST", base, path, Some(JStr("")), stringify).body.None?
    ensures Send("PUT", base, path, Some(JBool(false)), stringify).body.None?
    ensures Send("PUT", base, path, Some(JNull), stringify).body.None?
    ensures Send("POST", base, path, Some(JObj(map[])), stringify).body == Some(stringify(JObj(map[])))
  {
  }
}
