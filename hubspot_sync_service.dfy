/** The CRM-to-store direction (services/hubspotSyncService.js): a CRM
    product property changed, so write it back to the store product as a
    metafield, reading the metafield's namespace and key off the property
    name that `HubSpot.PropertyName` built.

    The CRM lookup, the metafield upsert and the SKU lookup are oracles: each
    is given what it settles to, and the calls made are returned in order. */
module HubSpotSyncService {
  import opened Js
  import opened Text
  import HubSpot

  /** `[namespace, key] = propertyName.split('__')`, kept only when both are
      non-empty. */
  function ParsePropertyName(propertyName: string): (r: Option<(string, string)>)
    ensures var parts := SplitOn(propertyName, "__");
      r.Some? <==> |parts| >= 2 && parts[0] != "" && parts[1] != ""
    ensures r.Some? ==> var parts := SplitOn(propertyName, "__");
      |parts| >= 2 && r.value == (parts[0], parts[1])
  {
    var parts := SplitOn(propertyName, "__");
    if parts[0] == "" || |parts| < 2 || parts[1] == "" then None
    else Some((parts[0], parts[1]))
  }

  /** No underscore at all: true of every allowed namespace. */
  predicate NoUnderscore(s: string) {
    forall i :: 0 <= i < |s| ==> s[i] != '_'
  }

  lemma AllowedNamespacesHaveNoUnderscore(ns: string)
    requires ns in HubSpot.AllowedNamespaces
    ensures NoUnderscore(ns)
  {
  }

  /** In `ns + "__" + key` with no underscore in `ns`, the first `__` is the
      one that joined them. */
  lemma FirstSeparator(ns: string, key: string)
    requires NoUnderscore(ns)
    ensures IndexOf(HubSpot.PropertyName(ns, key), "__") == |ns|
  {
    var s := HubSpot.PropertyName(ns, key);
    assert OccursAt(s, "__", |ns|) by {
      assert s[|ns|..|ns| + 2] == "__";
    }
    IndexOfIsFirst(s, "__", |ns|);
    forall j | 0 <= j < |ns| ensures !OccursAt(s, "__", j) {
      assert s[j] == ns[j];
    }
  }

  /** The split inverts the naming: a namespace without underscores and a
      non-empty key without `__` come back unchanged. */
  lemma ParseInvertsPropertyName(ns: string, key: string)
    requires ns != "" && NoUnderscore(ns)
    requires key != "" && !Contains(key, "__")
    ensures ParsePropertyName(HubSpot.PropertyName(ns, key)) == Some((ns, key))
  {
    var s := HubSpot.PropertyName(ns, key);
    FirstSeparator(ns, key);
    SplitOnFound(s, "__");
    assert s[..|ns|] == ns;
    assert s[|ns| + 2..] == key;
  }

  /** So every property the mapping names with an allowed namespace is
      written back to its own metafield, provided its key has no `__`. */
  lemma AllowedPropertyRoundTrip(ns: string, key: string)
    requires ns in HubSpot.AllowedNamespaces
    requires key != "" && !Contains(key, "__")
    ensures ParsePropertyName(HubSpot.PropertyName(ns, key)) == Some((ns, key))
  {
    AllowedNamespacesHaveNoUnderscore(ns);
    ParseInvertsPropertyName(ns, key);
  }

  /** A key holding `__` comes back cut at it: the write goes to another
      metafield (key `a__b` is written as key `a`). */
  lemma KeyWithSeparatorIsCut(ns: string, a: string, b: string)
    requires ns != "" && NoUnderscore(ns)
    requires a != "" && NoUnderscore(a)
    ensures ParsePropertyName(HubSpot.PropertyName(ns, a + "__" + b)) == Some((ns, a))
  {
    var key := a + "__" + b;
    var s := HubSpot.PropertyName(ns, key);
    FirstSeparator(ns, key);
    SplitOnFound(s, "__");
    assert s[..|ns|] == ns;
    assert s[|ns| + 2..] == key;
    assert key == HubSpot.PropertyName(a, b);
    FirstSeparator(a, b);
    SplitOnFound(key, "__");
    assert key[..|a|] == a;
  }

  /** A string where `__` does not occur. */
  lemma NoSeparator(t: string)
    requires t != [] && NoUnderscore(t[1..])
    ensures IndexOf(t, "__") == -1
  {
    forall j | 0 <= j && j + 2 <= |t| ensures !OccursAt(t, "__", j) {
      assert t[j + 1] == t[1..][j];
    }
  }

  /** A namespace ending in an underscore loses it to the key (`x_` and `k`
      come back as `x` and `_k`). */
  lemma UnderscoreNamespaceShifts(n: string, key: string)
    requires n != "" && NoUnderscore(n)
    requires key != "" && NoUnderscore(key)
    ensures ParsePropertyName(HubSpot.PropertyName(n + "_", key)) == Some((n, "_" + key))
  {
    var s := HubSpot.PropertyName(n + "_", key);
    assert s == HubSpot.PropertyName(n, "_" + key);
    FirstSeparator(n, "_" + key);
    SplitOnFound(s, "__");
    assert s[..|n|] == n;
    var rest := s[|n| + 2..];
    assert rest == "_" + key;
    assert rest[1..] == key;
    NoSeparator(rest);
  }

  // ---------------------------------------------------------------------
  // syncProductPropertyChange

  datatype Call =
    | GetCrmProduct(objectId: string)
    | UpsertMetafield(shopifyGid: string, namespace: string, key: string, value: string)
    | GetProductSku(shopifyGid: string)

  /** What the three calls settle to: the CRM product's `shopify_id`
      (None when it or `properties` is missing), the upsert, the SKU. */
  datatype Replies = Replies(lookup: Result<Option<string>>, upsert: Result<()>, sku: Result<string>)

  /** Where the handler returned. */
  datatype Exit = NotInCrm | NoShopifyId | InvalidProperty | Attempted

  /** `err.status === 404`. */
  predicate IsNotFound(e: Thrown) {
    e.ThrownObject? && e.obj.status == Some(404)
  }

  /** `syncProductPropertyChange({objectId, propertyName, propertyValue})`:
      look the CRM product up, then write the property to its store product
      and read the product's SKU, swallowing errors of the last two. */
  method SyncProductPropertyChange(objectId: string, propertyName: string, propertyValue: string, r: Replies)
    returns (calls: seq<Call>, result: Result<Exit>)
    ensures |calls| >= 1 && calls[0] == GetCrmProduct(objectId)
    ensures r.lookup.Threw? && IsNotFound(r.lookup.error) ==> calls == [GetCrmProduct(objectId)] && result == Ok(NotInCrm)
    ensures r.lookup.Threw? && !IsNotFound(r.lookup.error) ==> calls == [GetCrmProduct(objectId)] && result == Threw(r.lookup.error)
    ensures r.lookup.Ok? && !Truthy(r.lookup.value) ==> calls == [GetCrmProduct(objectId)] && result == Ok(NoShopifyId)
    ensures r.lookup.Ok? && Truthy(r.lookup.value) && ParsePropertyName(propertyName).None? ==>
      calls == [GetCrmProduct(objectId)] && result == Ok(InvalidProperty)
    ensures r.lookup.Ok? && Truthy(r.lookup.value) && ParsePropertyName(propertyName).Some? ==>
      var gid := r.lookup.value.value;
      var name := ParsePropertyName(propertyName).value;
      && calls[1..] == [UpsertMetafield(gid, name.0, name.1, propertyValue)] + (if r.upsert.Ok? then [GetProductSku(gid)] else [])
      && result == Ok(Attempted)
    ensures result.Threw? ==> r.lookup.Threw? && !IsNotFound(r.lookup.error) && result.error == r.lookup.error
    ensures (exists c :: c in calls && c.UpsertMetafield?) <==> result == Ok(Attempted)
  {
    calls := [GetCrmProduct(objectId)];
    if r.lookup.Threw? {
      if IsNotFound(r.lookup.error) {
        return calls, Ok(NotInCrm);
      }
      return calls, Threw(r.lookup.error);
    }
    var shopifyGid := r.lookup.value;
    if !Truthy(shopifyGid) {
      return calls, Ok(NoShopifyId);
    }
    var name := ParsePropertyName(propertyName);
    if name.None? {
      return calls, Ok(InvalidProperty);
    }
    var (namespace, key) := name.value;
    calls := calls + [UpsertMetafield(shopifyGid.value, namespace, key, propertyValue)];
    if r.upsert.Ok? {
      calls := calls + [GetProductSku(shopifyGid.value)];
    }
    assert calls[1] in calls;
    result := Ok(Attempted);
  }
}
