/** TRC10 asset metadata lookup with a process-lifetime cache
    (`asset_cache` and `lookup_trc10` in index.js). */
module Assets {
  import opened Wrappers
  import opened Remote
  import opened Digits

  /** The fields of a TronGrid asset entry that the ledger uses. */
  datatype AssetInfo = AssetInfo(id: string, abbr: string, name: string, precision: Option<nat>)

  /** `asset.precision || 0`: a missing precision counts as no decimals. */
  function Decimals(a: AssetInfo): nat
  {
    match a.precision
    case Some(p) => p
    case None => 0
  }

  datatype LookupError =
    | IdLookupFailed(asset: string)     // unsuccessful or empty reply to a lookup by ID
    | NameLookupFailed(asset: string)   // unsuccessful or empty page while listing by name
    | NoExactMatch(asset: string)       // the listing ran out without an exact name match

  /** The remote asset directory as the resolver sees it: the reply to a
      lookup by ID, and the successive pages of a listing by name (sorted by
      ascending ID, each page asked for with the previous page's fingerprint). */
  datatype Directory = Directory(
    byId: string -> Page<AssetInfo>,
    byName: string -> seq<Page<AssetInfo>>)

  /** The answer to a lookup by ID: its first entry, or an error when the
      reply is unsuccessful or empty. */
  function ResolveById(reply: Page<AssetInfo>, asset: string): (r: Result<AssetInfo, LookupError>)
    ensures r.Ok? <==> reply.success && |reply.data| > 0
    ensures r.Ok? ==> r.value == reply.data[0]
    ensures r.Err? ==> r.error == IdLookupFailed(asset)
  {
    if !reply.success || |reply.data| == 0 then Err(IdLookupFailed(asset)) else Ok(reply.data[0])
  }

  /** Index of the first entry of `data` whose name is exactly `name`. */
  function FirstNamed(data: seq<AssetInfo>, name: string): (r: Option<nat>)
    ensures r.Some? ==> r.value < |data| && data[r.value].name == name
    ensures r.Some? ==> forall j :: 0 <= j < r.value ==> data[j].name != name
    ensures r.None? ==> forall j :: 0 <= j < |data| ==> data[j].name != name
  {
    if |data| == 0 then None
    else if data[0].name == name then Some(0)
    else match FirstNamed(data[1..], name)
      case None => None
      case Some(i) => Some(i + 1)
  }

  /** The name search from the `k`-th page of the listing on. */
  function ScanByName(pages: seq<Page<AssetInfo>>, name: string, k: nat): (r: Result<AssetInfo, LookupError>)
    ensures r.Ok? ==> r.value.name == name
    ensures r.Err? ==> r.error == NameLookupFailed(name) || r.error == NoExactMatch(name)
    decreases |pages| - k
  {
    var p := PageAt(pages, k);
    if !p.success || |p.data| == 0 then Err(NameLookupFailed(name))
    else match FirstNamed(p.data, name)
      case Some(i) => Ok(p.data[i])
      case None =>
        if p.fingerprint.Some? then ScanByName(pages, name, k + 1) else Err(NoExactMatch(name))
  }

  /** What `lookup_trc10` answers for `asset` when nothing is cached. */
  function Resolve(asset: string, dir: Directory): (r: Result<AssetInfo, LookupError>)
    // a numeral is looked up by ID only: it succeeds exactly on a successful, non-empty reply
    ensures IsNumeral(asset) ==> (r.Ok? <==> dir.byId(asset).success && |dir.byId(asset).data| > 0)
    // any other identifier is found by exact name
    ensures r.Ok? && !IsNumeral(asset) ==> r.value.name == asset
    // errors name the identifier, and the ID error is exactly the numeral's
    ensures r.Err? ==> r.error.asset == asset && (r.error.IdLookupFailed? <==> IsNumeral(asset))
  {
    if IsNumeral(asset) then ResolveById(dir.byId(asset), asset)
    else ScanByName(dir.byName(asset), asset, 0)
  }

  /** A page the name search reads through: successful, non-empty, with no
      entry of that name, and with a fingerprint to the next page. */
  ghost predicate PassesOver(p: Page<AssetInfo>, name: string)
  {
    && p.success
    && |p.data| > 0
    && p.fingerprint.Some?
    && forall i :: 0 <= i < |p.data| ==> p.data[i].name != name
  }

  /** Every page from `k` up to (not including) `m` is read through. */
  ghost predicate PassesOverAll(pages: seq<Page<AssetInfo>>, name: string, k: nat, m: nat)
  {
    k <= m <= |pages| && forall j :: k <= j < m ==> PassesOver(pages[j], name)
  }

  /** Entry `i` of page `j` is the first exact match met when the search
      starts at page `k`. */
  ghost predicate FirstMatchAt(pages: seq<Page<AssetInfo>>, name: string, k: nat, j: nat, i: nat)
  {
    && PassesOverAll(pages, name, k, j)
    && j < |pages|
    && pages[j].success
    && i < |pages[j].data|
    && pages[j].data[i].name == name
    && forall i' :: 0 <= i' < i ==> pages[j].data[i'].name != name
  }

  /** Pages that are read through do not change the outcome. */
  lemma {:induction false} ScanSkips(pages: seq<Page<AssetInfo>>, name: string, k: nat, m: nat)
    requires PassesOverAll(pages, name, k, m)
    ensures ScanByName(pages, name, k) == ScanByName(pages, name, m)
    decreases m - k
  {
    if k < m {
      assert PassesOver(pages[k], name);
      ScanSkips(pages, name, k + 1, m);
    }
  }

  /** The search answers the first exact match, in page order and then in
      entry order. */
  lemma ScanFindsFirstMatch(pages: seq<Page<AssetInfo>>, name: string, j: nat, i: nat)
    requires FirstMatchAt(pages, name, 0, j, i)
    ensures ScanByName(pages, name, 0) == Ok(pages[j].data[i])
  {
    ScanSkips(pages, name, 0, j);
  }

  /** Whatever the search answers is an exact match that comes first. */
  lemma {:induction false} ScanAnswersFirstMatch(pages: seq<Page<AssetInfo>>, name: string, k: nat)
    requires ScanByName(pages, name, k).Ok?
    ensures exists j: nat, i: nat ::
      FirstMatchAt(pages, name, k, j, i) && ScanByName(pages, name, k).value == pages[j].data[i]
    decreases |pages| - k
  {
    var p := PageAt(pages, k);
    match FirstNamed(p.data, name)
    case Some(i) =>
      assert FirstMatchAt(pages, name, k, k, i);
    case None =>
      ScanAnswersFirstMatch(pages, name, k + 1);
      var j: nat, i: nat :| FirstMatchAt(pages, name, k + 1, j, i)
        && ScanByName(pages, name, k + 1).value == pages[j].data[i];
      assert PassesOver(pages[k], name);
      assert FirstMatchAt(pages, name, k, j, i);
  }

  /** The errors of the search: an unsuccessful or empty page reached is
      `NameLookupFailed`, a last page (no fingerprint) without a match is
      `NoExactMatch`. */
  lemma ScanErrors(pages: seq<Page<AssetInfo>>, name: string, j: nat)
    requires PassesOverAll(pages, name, 0, j)
    ensures var p := PageAt(pages, j);
      (!p.success || |p.data| == 0 ==> ScanByName(pages, name, 0) == Err(NameLookupFailed(name)))
    ensures var p := PageAt(pages, j);
      ((p.success && |p.data| > 0 && p.fingerprint.None?
        && forall i :: 0 <= i < |p.data| ==> p.data[i].name != name)
       ==> ScanByName(pages, name, 0) == Err(NoExactMatch(name)))
  {
    ScanSkips(pages, name, 0, j);
  }

  /** The probe `asset_cache[asset]` as written: `asset_cache` is a plain
      object literal, so besides its own keys it also answers, with a truthy
      function, the names inherited from `Object.prototype`. */
  datatype Probe = OwnEntry(info: AssetInfo) | Inherited(member: string) | Miss

  const ObjectPrototypeMembers: set<string> := {
    "constructor", "hasOwnProperty", "isPrototypeOf", "propertyIsEnumerable",
    "toLocaleString", "toString", "valueOf", "__proto__",
    "__defineGetter__", "__defineSetter__", "__lookupGetter__", "__lookupSetter__"
  }

  function ProbeAsWritten(entries: map<string, AssetInfo>, asset: string): (r: Probe)
    ensures asset in entries ==> r == OwnEntry(entries[asset])
    ensures asset !in entries ==> (r.Inherited? <==> asset in ObjectPrototypeMembers)
  {
    if asset in entries then OwnEntry(entries[asset])
    else if asset in ObjectPrototypeMembers then Inherited(asset)
    else Miss
  }

  /** With an empty cache, an asset named `toString` is answered from the
      cache as written (the inherited function, which carries no `abbr`,
      `id` or `precision`, and whose `name` is its own, `toString`) without
      any directory lookup. */
  lemma InheritedNameShortCircuits()
    ensures ProbeAsWritten(map[], "toString") == Inherited("toString")
    ensures !IsNumeral("toString")
  {
    assert "toString" in ObjectPrototypeMembers;
    assert !IsDigit("toString"[0]);
  }

  /** `after` keeps every entry of `before`, unchanged. */
  ghost predicate KeepsEntries(before: map<string, AssetInfo>, after: map<string, AssetInfo>)
  {
    forall key :: key in before ==> key in after && after[key] == before[key]
  }

  /** The cache: identifier asked for, to the entry the directory gave for it. */
  class AssetCache {
    var entries: map<string, AssetInfo>

    constructor ()
      ensures entries == map[]
    {
      entries := map[];
    }

    /** Every cached entry is what the directory resolves its key to. */
    ghost predicate ConsistentWith(dir: Directory)
      reads this
    {
      forall key :: key in entries ==> Resolve(key, dir) == Ok(entries[key])
    }

    /** `lookup_trc10(asset)`: a cached entry is answered as is and nothing
        changes; otherwise the directory is asked (by ID for a numeral, by
        name otherwise) and a successful answer is cached under `asset`.
        Only the cache's own keys are hits (see `ProbeAsWritten`). */
    method Lookup(asset: string, dir: Directory) returns (r: Result<AssetInfo, LookupError>)
      modifies this
      ensures asset in old(entries) ==> r == Ok(old(entries)[asset]) && entries == old(entries)
      ensures asset !in old(entries) ==> r == Resolve(asset, dir)
      ensures asset !in old(entries) && r.Ok? ==> entries == old(entries)[asset := r.value]
      ensures asset !in old(entries) && r.Err? ==> entries == old(entries)
      ensures old(ConsistentWith(dir)) ==> ConsistentWith(dir) && r == Resolve(asset, dir)
    {
      if asset in entries {
        return Ok(entries[asset]);
      }
      if IsNumeral(asset) {
        var reply := dir.byId(asset);
        if !reply.success || |reply.data| == 0 {
          return Err(IdLookupFailed(asset));
        }
        entries := entries[asset := reply.data[0]];
        return Ok(entries[asset]);
      }
      var pages := dir.byName(asset);
      var k := 0;
      var reply := PageAt(pages, k);
      while true
        invariant k <= |pages|
        invariant reply == PageAt(pages, k)
        invariant ScanByName(pages, asset, k) == Resolve(asset, dir)
        invariant entries == old(entries)
        decreases |pages| - k
      {
        if !reply.success || |reply.data| == 0 {
          return Err(NameLookupFailed(asset));
        }
        for j := 0 to |reply.data|
          invariant forall j' :: 0 <= j' < j ==> reply.data[j'].name != asset
          invariant entries == old(entries)
        {
          if reply.data[j].name == asset {
            assert FirstNamed(reply.data, asset) == Some(j);
            entries := entries[asset := reply.data[j]];
            return Ok(entries[asset]);
          }
        }
        if reply.fingerprint.Some? {
          k := k + 1;
          reply := PageAt(pages, k);
        } else {
          return Err(NoExactMatch(asset));
        }
      }
    }
  }
}
