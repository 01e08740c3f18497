/** The store-to-CRM record mapping, the CRM error classifier and the
    reconciliation of one store product with the CRM (lib/hubspot.js).
    The store fetch and the CRM client are oracles: each reconciliation is
    given the replies its calls receive, and returns the calls it issued,
    the lines it logged and the failure it pushed, if any. */
module HubSpot {
  import opened Js
  import opened Text

  /** Metafield namespaces copied to the CRM. */
  const AllowedNamespaces: set<string> :=
    {"custom", "diamond", "gemstone", "jewelry", "loose", "fantasy"}

  /** One metafield node of a store product; `value` is None when null. */
  datatype Metafield = Metafield(namespace: string, key: string, value: Option<string>)

  /** A CRM property value. Only strings come out of the mapping, but
      `filterEmptyProperties` is written for any value. */
  datatype PropValue = Null | Str(s: string) | Num(n: int) | Bool(b: bool)

  /** The CRM property name of a metafield. */
  function PropertyName(namespace: string, key: string): (name: string)
    ensures |name| == |namespace| + 2 + |key|
    ensures name[..|namespace|] == namespace && name[|namespace|..|namespace| + 2] == "__"
    ensures name[|namespace| + 2..] == key
  {
    namespace + "__" + key
  }

  // ---------------------------------------------------------------------
  // extractMetafields

  /** A metafield `extractMetafields` keeps. */
  predicate Kept(m: Metafield) {
    m.namespace in AllowedNamespaces && m.value.Some? && !IsBlank(m.value.value)
  }

  /** The metafield is kept and stored under `name`. */
  predicate KeptAs(m: Metafield, name: string) {
    Kept(m) && PropertyName(m.namespace, m.key) == name
  }

  /** The object `extractMetafields` builds, written as the fold its
      `forEach` performs: a later metafield overwrites an earlier one
      stored under the same name. */
  function MetafieldProperties(edges: seq<Metafield>): map<string, string>
  {
    if edges == [] then map[]
    else
      var m := MetafieldProperties(edges[..|edges| - 1]);
      var e := edges[|edges| - 1];
      if Kept(e) then m[PropertyName(e.namespace, e.key) := e.value.value] else m
  }

  /** `extractMetafields`, loop for loop. */
  method ExtractMetafields(edges: seq<Metafield>) returns (metafields: map<string, string>)
    ensures metafields == MetafieldProperties(edges)
  {
    metafields := map[];
    for i := 0 to |edges|
      invariant metafields == MetafieldProperties(edges[..i])
    {
      assert edges[..i + 1][..i] == edges[..i];
      var e := edges[i];
      if Kept(e) {
        metafields := metafields[PropertyName(e.namespace, e.key) := e.value.value];
      }
    }
    assert edges[..|edges|] == edges;
  }

  /** A kept metafield's name is present. */
  lemma {:induction false} KeptIsPresent(edges: seq<Metafield>, name: string, i: int)
    requires 0 <= i < |edges| && KeptAs(edges[i], name)
    ensures name in MetafieldProperties(edges)
  {
    MetafieldPropertiesStep(edges, name);
    if i < |edges| - 1 {
      KeptIsPresent(edges[..|edges| - 1], name, i);
    }
  }

  /** A present name comes from some kept metafield, found at index `i`. */
  lemma {:induction false} PresentIsKept(edges: seq<Metafield>, name: string) returns (i: int)
    requires name in MetafieldProperties(edges)
    ensures 0 <= i < |edges| && KeptAs(edges[i], name)
  {
    MetafieldPropertiesStep(edges, name);
    if KeptAs(edges[|edges| - 1], name) {
      i := |edges| - 1;
    } else {
      i := PresentIsKept(edges[..|edges| - 1], name);
    }
  }

  /** One step of the fold: the name is present after the last metafield iff
      it was before or that metafield is kept under it. */
  lemma MetafieldPropertiesStep(edges: seq<Metafield>, name: string)
    requires edges != []
    ensures name in MetafieldProperties(edges) <==>
      name in MetafieldProperties(edges[..|edges| - 1]) || KeptAs(edges[|edges| - 1], name)
  {
  }

  /** The name holds the untrimmed value of the last kept metafield stored
      under it: a later one overwrites an earlier one. */
  lemma {:induction false} MetafieldPropertiesLastWins(edges: seq<Metafield>, name: string, i: int)
    requires 0 <= i < |edges| && KeptAs(edges[i], name)
    requires forall j :: i < j < |edges| ==> !KeptAs(edges[j], name)
    ensures name in MetafieldProperties(edges)
    ensures MetafieldProperties(edges)[name] == edges[i].value.value
  {
    var init := edges[..|edges| - 1];
    if i < |init| {
      assert forall j :: i < j < |init| ==> init[j] == edges[j];
      MetafieldPropertiesLastWins(init, name, i);
      assert init[i] == edges[i];
    }
  }

  // ---------------------------------------------------------------------
  // filterEmptyProperties

  /** A value `filterEmptyProperties` keeps: not null or undefined, and not
      a blank string; numbers and booleans (0 and false included) pass. */
  predicate Present(v: PropValue) {
    match v
    case Null => false
    case Str(s) => !IsBlank(s)
    case _ => true
  }

  function FilterEmptyProperties(props: map<string, PropValue>): (r: map<string, PropValue>)
    ensures r.Keys <= props.Keys
    ensures forall k :: k in r ==> r[k] == props[k] && Present(r[k])
    ensures forall k :: k in props && Present(props[k]) ==> k in r
  {
    map k | k in props && Present(props[k]) :: props[k]
  }

  /** Filtering an already filtered property set changes nothing. */
  lemma FilterEmptyIdempotent(props: map<string, PropValue>)
    ensures FilterEmptyProperties(FilterEmptyProperties(props)) == FilterEmptyProperties(props)
  {
  }

  // ---------------------------------------------------------------------
  // parseHubSpotError

  /** `error.body || error`. */
  datatype Detail = DetailText(text: string) | DetailObject(obj: ErrorObject)

  function ErrorDetail(error: Thrown): Detail {
    match error
    case ThrownText(t, _) => DetailText(t)
    case ThrownObject(body, obj) =>
      match body
      case BodyText(t) => if t != "" then DetailText(t) else DetailObject(obj)
      case BodyObject(b) => DetailObject(b)
      case NoBody => DetailObject(obj)
  }

  /** The property names one `errors` entry contributes. */
  function Contribution(e: ErrorEntry): seq<string> {
    if e.code == "PROPERTY_DOESNT_EXIST" && e.propertyName.Some? then e.propertyName.value else []
  }

  /** The fold the `forEach` over `errors` performs. */
  function MissingProperties(es: seq<ErrorEntry>): seq<string> {
    if es == [] then [] else MissingProperties(es[..|es| - 1]) + Contribution(es[|es| - 1])
  }

  datatype ParsedError = ParsedError(errorMessage: string, missingProperties: seq<string>)

  /** What `parseHubSpotError` returns. */
  function ParsedErrorOf(error: Thrown): ParsedError {
    match ErrorDetail(error)
    case DetailText(t) => ParsedError(t, [])
    case DetailObject(obj) =>
      ParsedError(obj.json, if obj.errors.Some? then MissingProperties(obj.errors.value) else [])
  }

  /** `parseHubSpotError`, loop for loop. */
  method ParseHubSpotError(error: Thrown) returns (parsed: ParsedError)
    ensures parsed == ParsedErrorOf(error)
  {
    var detail := ErrorDetail(error);
    var errorMessage := if detail.DetailText? then detail.text else detail.obj.json;
    var missing: seq<string> := [];
    if detail.DetailObject? && detail.obj.errors.Some? {
      var es := detail.obj.errors.value;
      for i := 0 to |es|
        invariant missing == MissingProperties(es[..i])
      {
        assert es[..i + 1][..i] == es[..i];
        missing := missing + Contribution(es[i]);
      }
      assert es[..|es|] == es;
    }
    parsed := ParsedError(errorMessage, missing);
  }

  /** The missing-property list is the in-order concatenation of the
      entries' property names. */
  lemma {:induction false} MissingPropertiesAppend(a: seq<ErrorEntry>, b: seq<ErrorEntry>)
    ensures MissingProperties(a + b) == MissingProperties(a) + MissingProperties(b)
    decreases |b|
  {
    if b == [] {
      assert a + b == a;
    } else {
      var b' := b[..|b| - 1];
      MissingPropertiesAppend(a, b');
      assert (a + b)[..|a + b| - 1] == a + b';
    }
  }

  /** A string detail is the message unchanged, with no missing properties;
      an object whose `errors` is not an array has none either. */
  lemma ParsedErrorShapes(error: Thrown)
    ensures ErrorDetail(error).DetailText? ==>
      ParsedErrorOf(error) == ParsedError(ErrorDetail(error).text, [])
    ensures ErrorDetail(error).DetailObject? && ErrorDetail(error).obj.errors.None? ==>
      ParsedErrorOf(error).missingProperties == []
  {
  }

  // ---------------------------------------------------------------------
  // createOrUpdateHubSpotProduct

  datatype Variant = Variant(sku: Option<string>, price: Option<string>)

  /** The store product `getShopifyProduct` returns. */
  datatype Product = Product(
    id: string,
    title: string,
    descriptionHtml: Option<string>,
    onlineStoreUrl: Option<string>,
    imageSrc: Option<string>,
    variants: seq<Variant>,
    status: Option<string>,
    metafields: seq<Metafield>)

  /** A call issued to the store or the CRM. */
  datatype Call =
    | FetchProduct(gid: string)
    | Search(propertyName: string, value: string, limit: nat)
    | Update(id: string, properties: map<string, PropValue>)
    | Create(properties: map<string, PropValue>)
    | Archive(id: string)

  /** The replies one reconciliation receives: the store fetch, the CRM
      search (the ids of the results) and the CRM update or create. */
  datatype Replies = Replies(product: Result<Product>, search: Result<seq<string>>, write: Result<()>)

  datatype Failure = Failure(sku: string, reason: string)
  datatype Success = Success(sku: string, title: string, status: string)

  /** The calls issued, the lines logged and the failure pushed. */
  datatype Reconciliation = Reconciliation(calls: seq<Call>, logs: seq<string>, failure: Option<Failure>)

  const Cross := "\U{274C}"

  /** The first variant's SKU, or "". */
  function FirstSku(p: Product): string {
    if |p.variants| > 0 then OrEmpty(p.variants[0].sku) else ""
  }

  function FirstPrice(p: Product): string {
    if |p.variants| > 0 then OrEmpty(p.variants[0].price) else ""
  }

  /** `rawProperties`: the identity fields, then the metafields spread over them. */
  function RawProperties(p: Product): map<string, PropValue> {
    var mf := MetafieldProperties(p.metafields);
    map[
      "name" := Str(p.title),
      "description" := Str(OrEmpty(p.descriptionHtml)),
      "shopify_id" := Str(p.id),
      "hs_url" := Str(OrEmpty(p.onlineStoreUrl)),
      "hs_images" := Str(OrEmpty(p.imageSrc)),
      "hs_sku" := Str(FirstSku(p)),
      "price" := Str(FirstPrice(p)),
      "status" := Str(OrEmpty(p.status))]
    + map k | k in mf :: Str(mf[k])
  }

  function Properties(p: Product): map<string, PropValue> {
    FilterEmptyProperties(RawProperties(p))
  }

  /** `productSku || "Unknown SKU"`. */
  function SkuLabel(productSku: string): string {
    if productSku == "" then "Unknown SKU" else productSku
  }

  function FailedPrefix(productSku: string): string {
    Cross + " Failed (SKU: " + SkuLabel(productSku) + ") - "
  }

  /** `error.errors[0].context.propertyName[0] || ""`, read off the thrown
      value itself rather than its detail. */
  function FirstErrorProperty(error: Thrown): string {
    match error
    case ThrownText(_, _) => ""
    case ThrownObject(_, obj) =>
      if obj.errors.Some? && |obj.errors.value| > 0
        && obj.errors.value[0].propertyName.Some? && |obj.errors.value[0].propertyName.value| > 0
      then obj.errors.value[0].propertyName.value[0]
      else ""
  }

  /** The failure reason the catch block records. */
  function FailureReason(parsed: ParsedError): (reason: string)
    ensures |parsed.missingProperties| > 0 ==>
      reason == "Missing Properties: " + Join(parsed.missingProperties, ", ") + ". " + parsed.errorMessage
    ensures |parsed.missingProperties| == 0 && Contains(parsed.errorMessage, "already has that value") ==>
      reason == "SKU already in use. " + parsed.errorMessage
    ensures |parsed.missingProperties| == 0 && !Contains(parsed.errorMessage, "already has that value") ==>
      reason == parsed.errorMessage
  {
    if |parsed.missingProperties| > 0 then
      "Missing Properties: " + Join(parsed.missingProperties, ", ") + ". " + parsed.errorMessage
    else if Contains(parsed.errorMessage, "already has that value") then
      "SKU already in use. " + parsed.errorMessage
    else parsed.errorMessage
  }

  /** The lines the catch block logs. */
  function FailureLogs(productSku: string, error: Thrown): seq<string> {
    var parsed := ParsedErrorOf(error);
    var prefix := FailedPrefix(productSku);
    if |parsed.missingProperties| > 0 then
      [prefix + FailureReason(parsed) + ".",
       prefix + "Missing Properties: " + Join(parsed.missingProperties, ", ") + "."]
    else if Contains(parsed.errorMessage, "already has that value") then
      [prefix + FailureReason(parsed)]
    else if Contains(parsed.errorMessage, "null was not a valid number") then
      var name := FirstErrorProperty(error);
      [prefix + "Property values were not valid: null was not a valid number"
        + (if name != "" then " for " + name else "") + "."]
    else
      [prefix + parsed.errorMessage]
  }

  /** The catch block: classify, log, push one failure. */
  function Caught(productSku: string, error: Thrown, calls: seq<Call>, logs: seq<string>): (r: Reconciliation)
    ensures r.calls == calls
    ensures r.failure == Some(Failure(SkuLabel(productSku), FailureReason(ParsedErrorOf(error))))
  {
    Reconciliation(calls, logs + FailureLogs(productSku, error),
      Some(Failure(SkuLabel(productSku), FailureReason(ParsedErrorOf(error)))))
  }

  function ProcessingLine(p: Product): string {
    "\U{1F504} Processing product: " + p.title + " (SKU: " + FirstSku(p) + ")"
  }

  /** The write that follows a search answered with `ids`. */
  function WriteCall(p: Product, ids: seq<string>): Call {
    if |ids| > 0 then Update(ids[0], Properties(p)) else Create(Properties(p))
  }

  /** The try block after the search answered with `ids`. */
  function AfterSearch(gid: string, productSku: string, p: Product, ids: seq<string>, write: Result<()>): (r: Reconciliation)
    ensures r.calls == [FetchProduct(gid), Search("hs_sku", FirstSku(p), 1), WriteCall(p, ids)]
    ensures r.failure.Some? <==> write.Threw?
    ensures r.failure.Some? ==> r.failure.value.sku == SkuLabel(productSku)
  {
    var sku := FirstSku(p);
    var calls := [FetchProduct(gid), Search("hs_sku", sku, 1), WriteCall(p, ids)];
    match write
    case Threw(e) => Caught(productSku, e, calls, [ProcessingLine(p)])
    case Ok(_) =>
      var line := if |ids| > 0 then "\U{1F501} Updated: " + p.title + " (SKU: " + sku + ")"
                  else "\U{2705} Created: " + p.title + " (SKU: " + sku + ")";
      Reconciliation(calls, [ProcessingLine(p), line], None)
  }

  /** The try block after the store fetch returned `p`. */
  function AfterFetch(gid: string, productSku: string, p: Product, replies: Replies): (r: Reconciliation)
    ensures IsBlank(FirstSku(p)) ==> r.calls == [FetchProduct(gid)] && r.failure.None?
    ensures !IsBlank(FirstSku(p)) && replies.search.Threw? ==>
      r.calls == [FetchProduct(gid), Search("hs_sku", FirstSku(p), 1)] && r.failure.Some?
    ensures !IsBlank(FirstSku(p)) && replies.search.Ok? ==>
      r.calls == [FetchProduct(gid), Search("hs_sku", FirstSku(p), 1), WriteCall(p, replies.search.value)]
      && (r.failure.Some? <==> replies.write.Threw?)
    ensures r.failure.Some? ==> r.failure.value.sku == SkuLabel(productSku)
  {
    var sku := FirstSku(p);
    if IsBlank(sku) then
      Reconciliation([FetchProduct(gid)],
        [ProcessingLine(p), "\U{26A0}\U{FE0F} No SKU for product \"" + p.title + "\". Skipping HubSpot sync..."], None)
    else
      match replies.search
      case Threw(e) => Caught(productSku, e, [FetchProduct(gid), Search("hs_sku", sku, 1)], [ProcessingLine(p)])
      case Ok(ids) => AfterSearch(gid, productSku, p, ids, replies.write)
  }

  /** `createOrUpdateHubSpotProduct(product, log, productSku, failures)` for
      the product whose id is `gid`. It never throws: a failure of any call
      becomes one failure filed under the caller's SKU. */
  function Reconcile(gid: string, productSku: string, replies: Replies): (r: Reconciliation)
    ensures |r.calls| >= 1 && r.calls[0] == FetchProduct(gid)
    ensures r.failure.Some? ==> r.failure.value.sku == SkuLabel(productSku)
    ensures r.failure.Some? <==>
      || replies.product.Threw?
      || (!IsBlank(FirstSku(replies.product.value)) && (replies.search.Threw? || replies.write.Threw?))
  {
    match replies.product
    case Threw(e) => Caught(productSku, e, [FetchProduct(gid)], [])
    case Ok(p) => AfterFetch(gid, productSku, p, replies)
  }

  /** A product whose SKU is blank gets no search, no write and no failure. */
  lemma BlankSkuSkipped(gid: string, productSku: string, replies: Replies)
    requires replies.product.Ok? && IsBlank(FirstSku(replies.product.value))
    ensures Reconcile(gid, productSku, replies).calls == [FetchProduct(gid)]
    ensures Reconcile(gid, productSku, replies).failure.None?
  {
  }

  /** Otherwise the CRM is searched by `hs_sku` with limit 1, and when the
      search answers, exactly one update or create follows. */
  lemma SearchThenOneWrite(gid: string, productSku: string, replies: Replies)
    requires replies.product.Ok? && !IsBlank(FirstSku(replies.product.value))
    ensures var r := Reconcile(gid, productSku, replies);
      && (replies.search.Threw? ==>
            r.calls == [FetchProduct(gid), Search("hs_sku", FirstSku(replies.product.value), 1)])
      && (replies.search.Ok? ==>
            r.calls == [FetchProduct(gid), Search("hs_sku", FirstSku(replies.product.value), 1),
                        WriteCall(replies.product.value, replies.search.value)])
  {
  }

  /** The failure a thrown error leaves is its classified reason. */
  lemma FailureIsClassified(gid: string, productSku: string, replies: Replies, e: Thrown)
    requires replies.product == Threw(e)
      || (replies.product.Ok? && !IsBlank(FirstSku(replies.product.value))
          && (replies.search == Threw(e) || (replies.search.Ok? && replies.write == Threw(e))))
    ensures Reconcile(gid, productSku, replies).failure
      == Some(Failure(SkuLabel(productSku), FailureReason(ParsedErrorOf(e))))
  {
  }

  /** The write goes to the first search result when there is one, and
      otherwise creates; either way it sends the filtered properties, whose
      values are all present. */
  lemma WriteCallShape(p: Product, ids: seq<string>)
    ensures |ids| > 0 ==> WriteCall(p, ids) == Update(ids[0], Properties(p))
    ensures |ids| == 0 ==> WriteCall(p, ids) == Create(Properties(p))
    ensures forall k :: k in WriteCall(p, ids).properties ==> Present(WriteCall(p, ids).properties[k])
  {
  }

  // ---------------------------------------------------------------------
  // deleteHubSpotProduct

  /** The replies to the CRM search by store id and to the archive. */
  datatype DeleteReplies = DeleteReplies(search: Result<seq<string>>, archive: Result<()>)

  datatype Deletion = Deletion(calls: seq<Call>, logs: seq<string>)

  /** `error.message || JSON.stringify(error)`. */
  function ErrorText(e: Thrown): string {
    if MessageOf(e) != "" then MessageOf(e)
    else match e
      case ThrownText(_, json) => json
      case ThrownObject(_, obj) => obj.json
  }

  /** `deleteHubSpotProduct(product, log)` for a product whose `id` is `productId`. */
  function DeleteProduct(productId: Option<string>, replies: DeleteReplies): (r: Deletion)
    ensures |r.logs| == 1
    ensures !Truthy(productId) ==> r.calls == []
    ensures Truthy(productId) && replies.search.Ok? && |replies.search.value| > 0 ==>
      r.calls == [Search("shopify_id", productId.value, 1), Archive(replies.search.value[0])]
    ensures Truthy(productId) && !(replies.search.Ok? && |replies.search.value| > 0) ==>
      r.calls == [Search("shopify_id", productId.value, 1)]
  {
    if !Truthy(productId) then
      Deletion([], [Cross + " No product.id found in the webhook. Cannot delete in HubSpot."])
    else
      var id := productId.value;
      var search := Search("shopify_id", id, 1);
      match replies.search
      case Threw(e) =>
        Deletion([search], [Cross + " Error deleting product (Shopify ID: " + id + "): " + ErrorText(e)])
      case Ok(ids) =>
        if |ids| > 0 then
          var calls := [search, Archive(ids[0])];
          match replies.archive
          case Threw(e) =>
            Deletion(calls, [Cross + " Error deleting product (Shopify ID: " + id + "): " + ErrorText(e)])
          case Ok(_) =>
            Deletion(calls, ["\U{1F5D1}\U{FE0F} Deleted product from HubSpot. (Shopify ID: " + id + ")"])
        else
          Deletion([search], ["No matching HubSpot product found for deletion (Shopify ID: " + id + ")."])
  }
}
