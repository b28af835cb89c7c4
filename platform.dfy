/**
  The operating-system surface the free-space overwrite engine talks to.

  File URLs are identified by their path; bookmark data is an opaque blob;
  everything the OS decides (bookmark creation and resolution, existence
  checks, security-scoped access, URL parsing) is an oracle bundled in `Os`.
  `Defaults` is the key/value store the settings are persisted in.
 */
module Platform {

  datatype Option<+T> = None | Some(value: T)

  /** A file URL. Two URLs are the same key exactly when their paths agree. */
  datatype Url = Url(path: string)

  const FileScheme: string := "file://"

  /** The URL written out as text, as used for the keys of the persisted dictionaries. */
  function AbsoluteString(u: Url): (s: string)
    ensures FileScheme <= s && s[|FileScheme|..] == u.path
  {
    FileScheme + u.path
  }

  /** Distinct URLs never share their textual form. */
  lemma AbsoluteStringInjective(a: Url, b: Url)
    ensures AbsoluteString(a) == AbsoluteString(b) ==> a == b
  {
    if AbsoluteString(a) == AbsoluteString(b) {
      assert a.path == AbsoluteString(a)[|FileScheme|..];
      assert b.path == AbsoluteString(b)[|FileScheme|..];
    }
  }

  /** Opaque security-scoped bookmark data. */
  type BookmarkData = seq<bv8>

  /** Outcome of resolving bookmark data: the URL it denotes, or the error's description. */
  datatype Resolution = Resolved(url: Url) | Unresolved(reason: string)

  /** The foreign calls the bookmark tables make, as oracles. */
  datatype Os = Os(
    createBookmark: Url -> Option<BookmarkData>,  // url.bookmarkData(options: .withSecurityScope, ...)
    resolve: BookmarkData -> Resolution,          // URL(resolvingBookmarkData: ...)
    fileExists: string -> bool,                   // FileManager.fileExists(atPath:isDirectory:)
    isDirectory: string -> bool,                  // ... and the isDirectory flag it reports
    startAccess: Url -> bool,                     // startAccessingSecurityScopedResource()
    parseUrl: string -> Option<Url>               // URL(string:)
  )

  /** What a Data value in the store holds: a property-list dictionary of bookmarks, or bytes that do not decode as one. */
  datatype Encoded = BookmarkPlist(entries: map<string, BookmarkData>) | Undecodable(bytes: seq<bv8>)

  /** A value in the key/value store. A stored string array is kept as the set of its elements. */
  datatype Stored = Flag(b: bool) | StringSet(items: set<string>) | Blob(blob: Encoded)

  /** The persistent key/value store shared by the settings objects. */
  class Defaults {
    var entries: map<string, Stored>

    constructor (entries: map<string, Stored>)
      ensures this.entries == entries
    {
      this.entries := entries;
    }
  }

  /** `bool(forKey:)`: the stored flag, and false when the key is absent or holds something else. */
  function StoredFlag(entries: map<string, Stored>, key: string): (b: bool)
    ensures b <==> key in entries && entries[key] == Flag(true)
  {
    if key in entries && entries[key].Flag? then entries[key].b else false
  }

  /** `array(forKey:) as? [String]`: the stored strings, if the key holds a string array. */
  function StoredStrings(entries: map<string, Stored>, key: string): (r: Option<set<string>>)
    ensures r.Some? <==> key in entries && entries[key].StringSet?
    ensures r.Some? ==> entries[key] == StringSet(r.value)
  {
    if key in entries && entries[key].StringSet? then Some(entries[key].items) else None
  }

  /** `data(forKey:)` followed by decoding a `[String: Data]` property list: None when either step fails. */
  function StoredPlist(entries: map<string, Stored>, key: string): (r: Option<map<string, BookmarkData>>)
    ensures r.Some? <==> key in entries && entries[key].Blob? && entries[key].blob.BookmarkPlist?
    ensures r.Some? ==> entries[key] == Blob(BookmarkPlist(r.value))
  {
    if key in entries && entries[key].Blob? && entries[key].blob.BookmarkPlist?
    then Some(entries[key].blob.entries)
    else None
  }
}
