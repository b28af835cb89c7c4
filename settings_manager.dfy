/**
  The app's settings object: four persisted preferences and the table of
  security-scoped bookmarks for the volumes the user selected.
 */
module Settings {
  import opened Platform
  import opened Paths
  import opened BookmarkTable

  const UseSecureEraseKey: string := "useSecureErase"
  const LeaveSafetyBufferKey: string := "leaveSafetyBuffer"
  const TestModeKey: string := "testMode"
  const SelectedVolumesKey: string := "selectedVolumes"
  const BookmarksKey: string := "volumeBookmarks"

  /** The URL a selection is bookmarked under: the root volume becomes the data partition. */
  function SavedUrl(u: Url): (r: Url)
    ensures r.path != Root
    ensures u.path != Root ==> r == u
  {
    Url(SelectablePath(u.path))
  }

  /** Nothing a save adds is keyed by the root path. */
  lemma {:induction false} SavedUrlsAvoidRoot(before: Table, urls: seq<Url>, createBookmark: Url -> Option<BookmarkData>)
    ensures forall u :: u in before + Created(SavedUrls(urls), createBookmark) && u !in before ==> u.path != Root
  {
    forall u | u in before + Created(SavedUrls(urls), createBookmark) && u !in before
      ensures u.path != Root
    {
      var i :| 0 <= i < |urls| && SavedUrls(urls)[i] == u;
    }
  }

  function SavedUrls(urls: seq<Url>): (r: seq<Url>)
    ensures |r| == |urls| && forall i :: 0 <= i < |urls| ==> r[i] == SavedUrl(urls[i])
  {
    seq(|urls|, i requires 0 <= i < |urls| => SavedUrl(urls[i]))
  }

  /**
    The path an entry contributes to `resolvedVolumePaths`: its bookmark must
    resolve, the path must exist and be a directory, and scoped access must be
    granted; the data partition is then reported as the root volume.
   */
  function AcceptedPath(data: BookmarkData, os: Os): (p: Option<string>)
    ensures p.Some? <==>
              && os.resolve(data).Resolved?
              && os.fileExists(os.resolve(data).url.path)
              && os.isDirectory(os.resolve(data).url.path)
              && os.startAccess(os.resolve(data).url)
    ensures p.Some? ==> p.value == ReportedPath(os.resolve(data).url.path) && p.value != DataVolume
  {
    match os.resolve(data)
    case Unresolved(_) => None
    case Resolved(url) =>
      if os.fileExists(url.path) && os.isDirectory(url.path) && os.startAccess(url)
      then Some(ReportedPath(url.path))
      else None
  }

  /** The paths contributed by the entries whose keys are in `keys`. */
  function AcceptedPaths(t: Table, keys: set<Url>, os: Os): set<string>
    requires keys <= t.Keys
  {
    set u | u in keys && AcceptedPath(t[u], os).Some? :: AcceptedPath(t[u], os).value
  }

  /** Visiting one more entry adds its accepted path, if any. */
  lemma AcceptedPathsStep(t: Table, remaining: set<Url>, u: Url, os: Os)
    requires remaining <= t.Keys && u in remaining
    ensures AcceptedPaths(t, t.Keys - (remaining - {u}), os)
         == AcceptedPaths(t, t.Keys - remaining, os)
            + (if AcceptedPath(t[u], os).Some? then {AcceptedPath(t[u], os).value} else {})
  {
    assert t.Keys - (remaining - {u}) == (t.Keys - remaining) + {u};
  }

  /**
    A selection of the root volume, saved and then resolved, reads back as the
    root volume.
   */
  lemma RootSelectionReadsBack(os: Os, data: BookmarkData)
    requires os.resolve(data) == Resolved(SavedUrl(Url(Root)))
    requires os.fileExists(DataVolume) && os.isDirectory(DataVolume) && os.startAccess(Url(DataVolume))
    ensures AcceptedPath(data, os) == Some(Root)
  {
  }

  class SettingsManager {
    const defaults: Defaults

    var useSecureErase: bool
    var leaveSafetyBuffer: bool
    var testMode: bool
    var selectedVolumes: set<string>
    var volumeBookmarks: Table

    /** Reads the stored preferences, then loads the bookmark table. */
    constructor (defaults: Defaults, parseUrl: string -> Option<Url>)
      ensures this.defaults == defaults
      ensures useSecureErase == StoredFlag(defaults.entries, UseSecureEraseKey)
      ensures leaveSafetyBuffer == StoredFlag(defaults.entries, LeaveSafetyBufferKey)
      ensures testMode == StoredFlag(defaults.entries, TestModeKey)
      ensures selectedVolumes == match StoredStrings(defaults.entries, SelectedVolumesKey)
                                 case Some(items) => items
                                 case None => {}
      ensures StoredPlist(defaults.entries, BookmarksKey).None? ==> volumeBookmarks == map[]
      ensures StoredPlist(defaults.entries, BookmarksKey).Some? ==>
                DecodedFrom(volumeBookmarks, StoredPlist(defaults.entries, BookmarksKey).value, parseUrl)
      ensures defaults.entries == old(defaults.entries)
    {
      this.defaults := defaults;
      useSecureErase := StoredFlag(defaults.entries, UseSecureEraseKey);
      leaveSafetyBuffer := StoredFlag(defaults.entries, LeaveSafetyBufferKey);
      testMode := StoredFlag(defaults.entries, TestModeKey);
      selectedVolumes := match StoredStrings(defaults.entries, SelectedVolumesKey)
                         case Some(items) => items
                         case None => {};
      volumeBookmarks := map[];
      new;
      LoadVolumeBookmarks(parseUrl);
    }

    method SetUseSecureErase(value: bool)
      modifies this`useSecureErase, defaults
      ensures useSecureErase == value
      ensures defaults.entries == old(defaults.entries)[UseSecureEraseKey := Flag(value)]
    {
      useSecureErase := value;
      defaults.entries := defaults.entries[UseSecureEraseKey := Flag(value)];
    }

    method SetLeaveSafetyBuffer(value: bool)
      modifies this`leaveSafetyBuffer, defaults
      ensures leaveSafetyBuffer == value
      ensures defaults.entries == old(defaults.entries)[LeaveSafetyBufferKey := Flag(value)]
    {
      leaveSafetyBuffer := value;
      defaults.entries := defaults.entries[LeaveSafetyBufferKey := Flag(value)];
    }

    method SetTestMode(value: bool)
      modifies this`testMode, defaults
      ensures testMode == value
      ensures defaults.entries == old(defaults.entries)[TestModeKey := Flag(value)]
    {
      testMode := value;
      defaults.entries := defaults.entries[TestModeKey := Flag(value)];
    }

    method SetSelectedVolumes(value: set<string>)
      modifies this`selectedVolumes, defaults
      ensures selectedVolumes == value
      ensures defaults.entries == old(defaults.entries)[SelectedVolumesKey := StringSet(value)]
    {
      selectedVolumes := value;
      defaults.entries := defaults.entries[SelectedVolumesKey := StringSet(value)];
    }

    /**
      `resolvedVolumePaths`: the reported paths of the entries that resolve to an
      existing directory with scoped access granted; failures are skipped.
     */
    method ResolvedVolumePaths(os: Os) returns (resolved: set<string>)
      ensures resolved == AcceptedPaths(volumeBookmarks, volumeBookmarks.Keys, os)
      ensures DataVolume !in resolved
    {
      resolved := {};
      var remaining := volumeBookmarks.Keys;
      while remaining != {}
        invariant remaining <= volumeBookmarks.Keys
        invariant resolved == AcceptedPaths(volumeBookmarks, volumeBookmarks.Keys - remaining, os)
        decreases |remaining|
      {
        var url :| url in remaining;
        AcceptedPathsStep(volumeBookmarks, remaining, url, os);
        var accepted := AcceptedPath(volumeBookmarks[url], os);
        if accepted.Some? {
          resolved := resolved + {accepted.value};
        }
        remaining := remaining - {url};
      }
    }

    /**
      `saveVolumeBookmarks`: the root volume is remapped to the data partition,
      each URL whose bookmark can be created is inserted (or overwritten), other
      entries stay, and the whole table is persisted keyed by absolute string.
     */
    method SaveVolumeBookmarks(urls: seq<Url>, createBookmark: Url -> Option<BookmarkData>)
      modifies this`volumeBookmarks, defaults
      ensures volumeBookmarks == old(volumeBookmarks) + Created(SavedUrls(urls), createBookmark)
      ensures forall u :: u in volumeBookmarks && u !in old(volumeBookmarks) ==> u.path != Root
      ensures defaults.entries == old(defaults.entries)[BookmarksKey := Blob(BookmarkPlist(Persisted(volumeBookmarks)))]
    {
      var filtered := SavedUrls(urls);
      AddBookmarks(filtered, createBookmark);
      SavedUrlsAvoidRoot(old(volumeBookmarks), urls, createBookmark);
      defaults.entries := defaults.entries[BookmarksKey := Blob(BookmarkPlist(Persisted(volumeBookmarks)))];
    }

    /** The loop of `saveVolumeBookmarks`: each URL whose bookmark can be created is inserted or overwritten. */
    method AddBookmarks(urls: seq<Url>, createBookmark: Url -> Option<BookmarkData>)
      modifies this`volumeBookmarks
      ensures volumeBookmarks == old(volumeBookmarks) + Created(urls, createBookmark)
    {
      for i := 0 to |urls|
        invariant volumeBookmarks == old(volumeBookmarks) + Created(urls[..i], createBookmark)
      {
        var bookmark := createBookmark(urls[i]);
        CreatedSnoc(old(volumeBookmarks), urls[..i], urls[i], createBookmark);
        if bookmark.Some? {
          volumeBookmarks := volumeBookmarks[urls[i] := bookmark.value];
        }
        assert urls[..i + 1] == urls[..i] + [urls[i]];
      }
      assert urls[..|urls|] == urls;
    }

    /**
      `loadVolumeBookmarks`: when the store holds a decodable bookmark
      dictionary, the table becomes its entries whose keys parse as URLs;
      otherwise the table is left as it is.
     */
    method LoadVolumeBookmarks(parseUrl: string -> Option<Url>)
      modifies this`volumeBookmarks
      ensures StoredPlist(defaults.entries, BookmarksKey).None? ==> volumeBookmarks == old(volumeBookmarks)
      ensures StoredPlist(defaults.entries, BookmarksKey).Some? ==>
                DecodedFrom(volumeBookmarks, StoredPlist(defaults.entries, BookmarksKey).value, parseUrl)
    {
      var stored := StoredPlist(defaults.entries, BookmarksKey);
      if stored.Some? {
        volumeBookmarks := Decode(stored.value, parseUrl);
      }
    }

    /** `clearVolumeBookmarks`: the table is emptied and its stored copy removed. */
    method ClearVolumeBookmarks()
      modifies this`volumeBookmarks, defaults
      ensures volumeBookmarks == map[]
      ensures defaults.entries == old(defaults.entries) - {BookmarksKey}
    {
      volumeBookmarks := map[];
      defaults.entries := defaults.entries - {BookmarksKey};
    }
  }
}
