/**
 The query-string builder (`buildUrl`, index.js lines 21-28): starting from
 the API key, every parameter whose value is neither the empty string nor
 null/undefined is written into the URL's search parameters with
 `URLSearchParams.set`. Percent-encoding and serialisation to text are left
 to the URL library and not modelled; a URL here is its base and its ordered
 list of key/value pairs.
 */
module Query {
  import opened Values

  const ApiKey: string := "581144cc"
  const BaseUrl: string := "https://www.omdbapi.com/"

  /** An ordered list of key/value pairs: an object's entries, or a URL's search parameters. */
  type Params = seq<(string, JsValue)>

  datatype Url = Url(base: string, query: Params)

  /** The value of the first pair with key `k`, as `URLSearchParams.get` returns it. */
  function Lookup(qs: Params, k: string): Option<JsValue> {
    if qs == [] then None
    else if qs[0].0 == k then Some(qs[0].1)
    else Lookup(qs[1..], k)
  }

  /** No key occurs twice. */
  predicate DistinctKeys(qs: Params) {
    qs == [] || (Lookup(qs[1..], qs[0].0) == None && DistinctKeys(qs[1..]))
  }

  /** `qs` with every pair whose key is `k` removed. */
  function Without(qs: Params, k: string): (r: Params)
    ensures Lookup(r, k) == None
    ensures forall k' :: k' != k ==> Lookup(r, k') == Lookup(qs, k')
    ensures DistinctKeys(qs) ==> DistinctKeys(r)
  {
    if qs == [] then []
    else if qs[0].0 == k then Without(qs[1..], k)
    else [qs[0]] + Without(qs[1..], k)
  }

  /**
   `URLSearchParams.set(k, v)`: the first pair with key `k` takes value `v`
   and any later pairs with that key are dropped; with no such pair, `(k, v)`
   is appended. Every other key keeps its value and its position.
   */
  function Set(qs: Params, k: string, v: JsValue): (r: Params)
    ensures Lookup(r, k) == Some(v)
    ensures forall k' :: k' != k ==> Lookup(r, k') == Lookup(qs, k')
    ensures DistinctKeys(qs) ==> DistinctKeys(r)
    ensures qs != [] ==> r != [] && r[0].0 == qs[0].0
  {
    if qs == [] then [(k, v)]
    else if qs[0].0 == k then [(k, v)] + Without(qs[1..], k)
    else [qs[0]] + Set(qs[1..], k, v)
  }

  /** The guard of `buildUrl`: a value other than `''`, `null` and `undefined` is written. */
  predicate Kept(v: JsValue) {
    v != Str("") && v != Null && v != Undefined
  }

  /** The value of the last pair in `ps` with key `k` that `buildUrl` writes, if any. */
  function LastKept(ps: Params, k: string): Option<JsValue> {
    if ps == [] then None
    else if ps[|ps| - 1].0 == k && Kept(ps[|ps| - 1].1) then Some(ps[|ps| - 1].1)
    else LastKept(ps[..|ps| - 1], k)
  }

  /** The loop of `buildUrl`: each kept pair of `ps`, in order, is `set` into `qs`. */
  function SetAll(qs: Params, ps: Params): (r: Params)
    ensures forall k :: Lookup(r, k) == (if LastKept(ps, k).Some? then LastKept(ps, k) else Lookup(qs, k))
    ensures DistinctKeys(qs) ==> DistinctKeys(r)
    ensures qs != [] ==> r != [] && r[0].0 == qs[0].0
  {
    if ps == [] then qs
    else
      var prefix := SetAll(qs, ps[..|ps| - 1]);
      var (k, v) := ps[|ps| - 1];
      if Kept(v) then Set(prefix, k, v) else prefix
  }

  /** `buildUrl(params)`: the API key first, then the kept parameters. */
  function BuildUrl(params: Params): (u: Url)
    ensures u.base == BaseUrl
    ensures DistinctKeys(u.query)
    ensures u.query != [] && u.query[0].0 == "apikey"
  {
    var init: Params := [("apikey", Str(ApiKey))];
    assert init[1..] == [];
    assert DistinctKeys(init);
    Url(BaseUrl, SetAll(init, params))
  }

  /** A key of the built URL holds the last kept value given for it, or the API key for `apikey`. */
  lemma BuildUrlLookup(params: Params, k: string)
    ensures Lookup(BuildUrl(params).query, k) ==
      if LastKept(params, k).Some? then LastKept(params, k)
      else if k == "apikey" then Some(Str(ApiKey))
      else None
  {
    var init: Params := [("apikey", Str(ApiKey))];
    assert init[1..] == [];
    assert Lookup(init, k) == if k == "apikey" then Some(Str(ApiKey)) else None;
  }

  /**
   `LastKept` is the value at the last index whose pair has key `k` and a
   kept value, and there is none exactly when no pair with key `k` is kept.
   */
  lemma {:induction false} LastKeptSpec(ps: Params, k: string)
    ensures LastKept(ps, k).None? <==>
            (forall i :: 0 <= i < |ps| && ps[i].0 == k ==> !Kept(ps[i].1))
    ensures forall i :: 0 <= i < |ps| && ps[i].0 == k && Kept(ps[i].1)
                        && (forall j :: i < j < |ps| && ps[j].0 == k ==> !Kept(ps[j].1))
                        ==> LastKept(ps, k) == Some(ps[i].1)
  {
    if ps != [] {
      var init := ps[..|ps| - 1];
      LastKeptSpec(init, k);
      assert forall i :: 0 <= i < |init| ==> init[i] == ps[i];
    }
  }

  /**
   What the built URL carries, stated over the parameter list: `apikey` is
   always present; any other key is present exactly when some pair with that
   key has a kept value; and a present key holds the last such value.
   */
  lemma BuildUrlContents(params: Params, k: string)
    ensures Lookup(BuildUrl(params).query, "apikey").Some?
    ensures k != "apikey" ==>
      (Lookup(BuildUrl(params).query, k).Some? <==>
       exists i :: 0 <= i < |params| && params[i].0 == k && Kept(params[i].1))
    ensures forall i :: 0 <= i < |params| && params[i].0 == k && Kept(params[i].1)
                        && (forall j :: i < j < |params| && params[j].0 == k ==> !Kept(params[j].1))
                        ==> Lookup(BuildUrl(params).query, k) == Some(params[i].1)
    ensures (forall i :: 0 <= i < |params| && params[i].0 == "apikey" ==> !Kept(params[i].1))
            ==> Lookup(BuildUrl(params).query, "apikey") == Some(Str(ApiKey))
  {
    LastKeptSpec(params, k);
    LastKeptSpec(params, "apikey");
    BuildUrlLookup(params, k);
    BuildUrlLookup(params, "apikey");
  }
}
