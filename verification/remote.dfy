/** The shape of a paginated remote listing (TronGrid's `success`, `data`
    and `meta.fingerprint`). The network itself is not modelled: a listing
    is the sequence of replies it gives, one per request, in request order. */
module Remote {
  import opened Wrappers

  /** One reply: the success flag, the data list, and the fingerprint that
      asks for the next page when present. The source tests the fingerprint
      for truthiness, so `None` stands for every falsy `meta.fingerprint`
      (absent, `null`, the empty string) and `Some(f)` for a non-empty one. */
  datatype Page<T> = Page(success: bool, data: seq<T>, fingerprint: Option<string>)

  /** The reply to the `k`-th request of a listing whose recorded replies are
      `pages`; a request past the last recorded reply is answered as an
      unsuccessful, empty reply. */
  function PageAt<T>(pages: seq<Page<T>>, k: nat): Page<T>
  {
    if k < |pages| then pages[k] else Page(false, [], None)
  }
}
