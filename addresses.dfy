/**
 * The request addresses of the user and role pages. The base address
 * comes from the build configuration, falling back to a placeholder; the
 * delete and update addresses are template literals, but the listing and
 * create addresses are plain strings that hold the placeholder as text.
 */
module Addresses {
  import opened Js

  /** The text the pages fall back to when no base address is configured. */
  const Placeholder := "${API_URL}"

  /** `import.meta.env.VITE_API_URL || "${API_URL}"` */
  function ApiUrl(configured: Option<string>): (u: string)
    ensures configured.Some? && configured.value != "" ==> u == configured.value
    ensures configured.None? || configured.value == "" ==> u == Placeholder
  {
    if configured.Some? && configured.value != "" then configured.value else Placeholder
  }

  /** The delete and update addresses: the base, the action and the id. */
  function ItemUrl(configured: Option<string>, action: string, id: int): (u: string)
    ensures StartsWith(u, ApiUrl(configured) + "/" + action + "/")
  {
    var prefix := ApiUrl(configured) + "/" + action + "/";
    assert (prefix + IntToString(id))[..|prefix|] == prefix;
    prefix + IntToString(id)
  }

  /**
   * The listing and create addresses as written: double-quoted strings,
   * so the placeholder is sent as literal text whatever is configured.
   */
  function CollectionUrlAsWritten(configured: Option<string>, collection: string): string {
    "${API_URL}/" + collection
  }

  /** A configured base address never reaches a listing or create request as written. */
  lemma CollectionUrlIgnoresConfiguration(base: string, collection: string)
    requires base != "" && base != Placeholder
    ensures CollectionUrlAsWritten(Some(base), collection) != ApiUrl(Some(base)) + "/" + collection
  {
    var written := CollectionUrlAsWritten(Some(base), collection);
    var meant := base + "/" + collection;
    assert written[..|Placeholder|] == Placeholder;
    if |base| == |Placeholder| {
      assert meant[..|base|] == base;
    }
  }

  /** The listing and create addresses as evidently intended: built like the item addresses. */
  function CollectionUrl(configured: Option<string>, collection: string): (u: string)
    ensures StartsWith(u, ApiUrl(configured) + "/")
    ensures configured.Some? && configured.value != "" ==> StartsWith(u, configured.value)
  {
    var prefix := ApiUrl(configured) + "/";
    assert (prefix + collection)[..|prefix|] == prefix;
    assert configured.Some? && configured.value != "" ==> (prefix + collection)[..|configured.value|] == configured.value;
    prefix + collection
  }

  /** With the intended addresses, a listing goes to the same base as a delete. */
  lemma CollectionAndItemShareBase(configured: Option<string>, collection: string, action: string, id: int)
    ensures StartsWith(CollectionUrl(configured, collection), ApiUrl(configured))
    ensures StartsWith(ItemUrl(configured, action, id), ApiUrl(configured))
  {
    var base := ApiUrl(configured);
    var c := CollectionUrl(configured, collection);
    var i := ItemUrl(configured, action, id);
    assert c[..|base|] == (base + "/")[..|base|] == base;
    assert i[..|base|] == (base + "/" + action + "/")[..|base|] == base;
  }
}
