/**
  A second bookmark table, which the overwrite engine does not read: a URL →
  bookmark-data table persisted under its own key, without the root-volume
  remapping and without existence checks.
 */
module Bookmarks {
  import opened Platform
  import opened BookmarkTable

  const StorageKey: string := "BookmarkStorage"

  /** The path an entry contributes to `resolvedVolumePaths`: resolution and scoped access must both succeed. */
  function ScopedPath(data: BookmarkData, os: Os): (p: Option<string>)
    ensures p.Some? <==> os.resolve(data).Resolved? && os.startAccess(os.resolve(data).url)
    ensures p.Some? ==> p.value == os.resolve(data).url.path
  {
    match os.resolve(data)
    case Unresolved(_) => None
    case Resolved(url) => if os.startAccess(url) then Some(url.path) else None
  }

  /** The paths contributed by the entries whose keys are in `keys`. */
  function ScopedPaths(t: Table, keys: set<Url>, os: Os): set<string>
    requires keys <= t.Keys
  {
    set u | u in keys && ScopedPath(t[u], os).Some? :: ScopedPath(t[u], os).value
  }

  /** Visiting one more entry adds its path, if it has one. */
  lemma ScopedPathsStep(t: Table, remaining: set<Url>, u: Url, os: Os)
    requires remaining <= t.Keys && u in remaining
    ensures ScopedPaths(t, t.Keys - (remaining - {u}), os)
         == ScopedPaths(t, t.Keys - remaining, os)
            + (if ScopedPath(t[u], os).Some? then {ScopedPath(t[u], os).value} else {})
  {
    assert t.Keys - (remaining - {u}) == (t.Keys - remaining) + {u};
  }

  /** The entries of `t` whose bookmark data resolves. */
  function Resolvable(t: Table, resolve: BookmarkData -> Resolution): set<Url>
  {
    set u | u in t && resolve(t[u]).Resolved?
  }

  /**
    `keys` lists, without repetition, the entries of `visited` whose data
    resolves, and `urls` holds what each of them resolves to.
   */
  ghost predicate Enumerates(t: Table, resolve: BookmarkData -> Resolution, visited: set<Url>, keys: seq<Url>, urls: seq<Url>)
  {
    && visited <= t.Keys
    && |urls| == |keys| <= |visited|
    && (forall i, j :: 0 <= i < j < |keys| ==> keys[i] != keys[j])
    && (forall u :: u in keys <==> u in visited && resolve(t[u]).Resolved?)
    && (forall i :: 0 <= i < |keys| ==> keys[i] in t && resolve(t[keys[i]]) == Resolved(urls[i]))
  }

  lemma EnumeratesStep(t: Table, resolve: BookmarkData -> Resolution, remaining: set<Url>, keys: seq<Url>, urls: seq<Url>, url: Url)
    requires remaining <= t.Keys && Enumerates(t, resolve, t.Keys - remaining, keys, urls)
    requires url in remaining
    ensures resolve(t[url]).Unresolved? ==> Enumerates(t, resolve, t.Keys - (remaining - {url}), keys, urls)
    ensures resolve(t[url]).Resolved? ==>
              Enumerates(t, resolve, t.Keys - (remaining - {url}), keys + [url], urls + [resolve(t[url]).url])
  {
    var visited := t.Keys - remaining;
    assert t.Keys - (remaining - {url}) == visited + {url};
    assert |visited + {url}| == |visited| + 1;
    assert url !in keys;
  }

  class BookmarksManager {
    const defaults: Defaults
    var rawBookmarks: Table

    /** Starts empty and loads whatever the store holds. */
    constructor (defaults: Defaults, parseUrl: string -> Option<Url>)
      ensures this.defaults == defaults
      ensures StoredPlist(defaults.entries, StorageKey).None? ==> rawBookmarks == map[]
      ensures StoredPlist(defaults.entries, StorageKey).Some? ==>
                DecodedFrom(rawBookmarks, StoredPlist(defaults.entries, StorageKey).value, parseUrl)
      ensures defaults.entries == old(defaults.entries)
    {
      this.defaults := defaults;
      rawBookmarks := map[];
      new;
      Load(parseUrl);
    }

    /**
      `save(urls:)`: each URL whose bookmark can be created is inserted (or
      overwritten), other entries stay, and the table is persisted keyed by
      absolute string.
     */
    method Save(urls: seq<Url>, createBookmark: Url -> Option<BookmarkData>)
      modifies this`rawBookmarks, defaults
      ensures rawBookmarks == old(rawBookmarks) + Created(urls, createBookmark)
      ensures defaults.entries == old(defaults.entries)[StorageKey := Blob(BookmarkPlist(Persisted(rawBookmarks)))]
    {
      var i := 0;
      while i < |urls|
        invariant 0 <= i <= |urls|
        invariant rawBookmarks == old(rawBookmarks) + Created(urls[..i], createBookmark)
        invariant defaults.entries == old(defaults.entries)
      {
        var data := createBookmark(urls[i]);
        CreatedSnoc(old(rawBookmarks), urls[..i], urls[i], createBookmark);
        if data.Some? {
          rawBookmarks := rawBookmarks[urls[i] := data.value];
        }
        assert urls[..i + 1] == urls[..i] + [urls[i]];
        i := i + 1;
      }
      assert urls[..i] == urls;
      defaults.entries := defaults.entries[StorageKey := Blob(BookmarkPlist(Persisted(rawBookmarks)))];
    }

    /**
      `storedBookmarkURLs()`: the resolved URL of every entry whose bookmark
      resolves, one per such entry, in the table's iteration order (`keys`).
     */
    method StoredBookmarkURLs(resolve: BookmarkData -> Resolution) returns (urls: seq<Url>, ghost keys: seq<Url>)
      ensures |urls| == |keys| <= |rawBookmarks|
      ensures forall i, j :: 0 <= i < j < |keys| ==> keys[i] != keys[j]
      ensures forall u :: u in keys <==> u in Resolvable(rawBookmarks, resolve)
      ensures forall i :: 0 <= i < |keys| ==>
                keys[i] in rawBookmarks && resolve(rawBookmarks[keys[i]]) == Resolved(urls[i])
    {
      urls, keys := [], [];
      var remaining := rawBookmarks.Keys;
      assert rawBookmarks.Keys - remaining == {};
      while remaining != {}
        invariant remaining <= rawBookmarks.Keys
        invariant Enumerates(rawBookmarks, resolve, rawBookmarks.Keys - remaining, keys, urls)
        decreases |remaining|
      {
        var url :| url in remaining;
        var resolution := resolve(rawBookmarks[url]);
        EnumeratesStep(rawBookmarks, resolve, remaining, keys, urls, url);
        if resolution.Resolved? {
          urls, keys := urls + [resolution.url], keys + [url];
        }
        remaining := remaining - {url};
      }
      assert rawBookmarks.Keys - remaining == rawBookmarks.Keys;
      assert |rawBookmarks.Keys| == |rawBookmarks|;
    }

    /**
      `resolvedVolumePaths()`: the paths of the entries that resolve and whose
      security scope can be entered; the others are skipped.
     */
    method ResolvedVolumePaths(os: Os) returns (paths: set<string>)
      ensures paths == ScopedPaths(rawBookmarks, rawBookmarks.Keys, os)
    {
      paths := {};
      var remaining := rawBookmarks.Keys;
      while remaining != {}
        invariant remaining <= rawBookmarks.Keys
        invariant paths == ScopedPaths(rawBookmarks, rawBookmarks.Keys - remaining, os)
        decreases |remaining|
      {
        var url :| url in remaining;
        ScopedPathsStep(rawBookmarks, remaining, url, os);
        var path := ScopedPath(rawBookmarks[url], os);
        if path.Some? {
          paths := paths + {path.value};
        }
        remaining := remaining - {url};
      }
    }

    /**
      `load()`: when the store holds a decodable bookmark dictionary, the table
      becomes its entries whose keys parse as URLs; otherwise it is left as it is.
     */
    method Load(parseUrl: string -> Option<Url>)
      modifies this`rawBookmarks
      ensures StoredPlist(defaults.entries, StorageKey).None? ==> rawBookmarks == old(rawBookmarks)
      ensures StoredPlist(defaults.entries, StorageKey).Some? ==>
                DecodedFrom(rawBookmarks, StoredPlist(defaults.entries, StorageKey).value, parseUrl)
    {
      var stored := StoredPlist(defaults.entries, StorageKey);
      if stored.Some? {
        rawBookmarks := Decode(stored.value, parseUrl);
      }
    }
  }

  /** Every path `resolvedVolumePaths()` reports is the path of a URL `storedBookmarkURLs()` lists. */
  lemma ScopedPathsAreStoredUrls(t: Table, os: Os, urls: seq<Url>, keys: seq<Url>)
    requires |urls| == |keys|
    requires forall u :: u in keys <==> u in Resolvable(t, os.resolve)
    requires forall i :: 0 <= i < |keys| ==> keys[i] in t && os.resolve(t[keys[i]]) == Resolved(urls[i])
    ensures forall p :: p in ScopedPaths(t, t.Keys, os) ==> exists i :: 0 <= i < |urls| && urls[i].path == p
  {
    forall p | p in ScopedPaths(t, t.Keys, os)
      ensures exists i :: 0 <= i < |urls| && urls[i].path == p
    {
      var u :| u in t && ScopedPath(t[u], os).Some? && ScopedPath(t[u], os).value == p;
      assert u in Resolvable(t, os.resolve);
      var i :| 0 <= i < |keys| && keys[i] == u;
      assert urls[i].path == p;
    }
  }
}
