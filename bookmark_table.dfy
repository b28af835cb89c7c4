/**
  The URL → bookmark-data tables kept by both settings objects: what a save
  adds, the dictionary they persist, and how a persisted dictionary is read back.
 */
module BookmarkTable {
  import opened Platform

  type Table = map<Url, BookmarkData>

  /** The entries a save creates: every listed URL whose bookmark creation succeeds. */
  function Created(urls: seq<Url>, createBookmark: Url -> Option<BookmarkData>): (t: Table)
    ensures forall u :: u in t <==> u in urls && createBookmark(u).Some?
    ensures forall u :: u in t ==> t[u] == createBookmark(u).value
  {
    map u | u in urls && createBookmark(u).Some? :: createBookmark(u).value
  }

  /** Handling one more URL inserts (or overwrites) its entry when its bookmark can be created. */
  lemma CreatedSnoc(base: Table, urls: seq<Url>, u: Url, createBookmark: Url -> Option<BookmarkData>)
    ensures base + Created(urls + [u], createBookmark)
         == (if createBookmark(u).Some?
             then (base + Created(urls, createBookmark))[u := createBookmark(u).value]
             else base + Created(urls, createBookmark))
  {
    var next := urls + [u];
    assert forall v :: v in next <==> v in urls || v == u;
  }

  /** The dictionary written to the store: each entry keyed by its URL's absolute string. */
  function Persisted(t: Table): (d: map<string, BookmarkData>)
    ensures forall u :: u in t ==> AbsoluteString(u) in d && d[AbsoluteString(u)] == t[u]
    ensures forall k :: k in d ==> exists u :: u in t && k == AbsoluteString(u)
  {
    forall a, b | a in t && b in t && AbsoluteString(a) == AbsoluteString(b)
      ensures t[a] == t[b]
    {
      AbsoluteStringInjective(a, b);
    }
    map u | u in t :: AbsoluteString(u) := t[u]
  }

  /** An injective image of a set is as large as the set. */
  lemma {:induction false} ImageOfInjective(s: set<Url>)
    ensures |set u | u in s :: AbsoluteString(u)| == |s|
    decreases |s|
  {
    if s != {} {
      var x :| x in s;
      var rest := s - {x};
      ImageOfInjective(rest);
      var image := set u | u in s :: AbsoluteString(u);
      var restImage := set u | u in rest :: AbsoluteString(u);
      assert image == restImage + {AbsoluteString(x)};
      forall y | y in rest
        ensures AbsoluteString(y) != AbsoluteString(x)
      {
        AbsoluteStringInjective(x, y);
      }
    }
  }

  /** The persisted dictionary has exactly one key per table entry. */
  lemma PersistedHasOneKeyPerEntry(t: Table)
    ensures |Persisted(t)| == |t|
    ensures Persisted(t).Keys == set u | u in t :: AbsoluteString(u)
  {
    var d := Persisted(t);
    assert d.Keys == set u | u in t.Keys :: AbsoluteString(u);
    ImageOfInjective(t.Keys);
  }

  /**
    `t` is what reading `d` back yields: every key that parses as a URL
    contributes that URL with its data, keys that do not parse are dropped; when
    two keys parse to the same URL, one of them (in dictionary order) wins.
   */
  ghost predicate DecodedFrom(t: Table, d: map<string, BookmarkData>, parseUrl: string -> Option<Url>)
  {
    && (forall u :: u in t <==> exists k :: k in d && parseUrl(k) == Some(u))
    && (forall u :: u in t ==> exists k :: k in d && parseUrl(k) == Some(u) && t[u] == d[k])
  }

  /** The `reduce(into:)` over the decoded dictionary, in whatever order the dictionary yields its keys. */
  method Decode(d: map<string, BookmarkData>, parseUrl: string -> Option<Url>) returns (t: Table)
    ensures DecodedFrom(t, d, parseUrl)
  {
    t := map[];
    var remaining := d.Keys;
    while remaining != {}
      invariant remaining <= d.Keys
      invariant forall u :: u in t <==> exists k :: k in d && k !in remaining && parseUrl(k) == Some(u)
      invariant forall u :: u in t ==> exists k :: k in d && k !in remaining && parseUrl(k) == Some(u) && t[u] == d[k]
      decreases |remaining|
    {
      var k :| k in remaining;
      if parseUrl(k).Some? {
        t := t[parseUrl(k).value := d[k]];
      }
      remaining := remaining - {k};
    }
  }

  /** `order` lists the keys in `visited`, each exactly once: the part of a dictionary iteration done so far. */
  ghost predicate ListsOnce(t: Table, visited: set<Url>, order: seq<Url>)
  {
    && visited <= t.Keys
    && |order| == |visited|
    && (forall i, j :: 0 <= i < j < |order| ==> order[i] != order[j])
    && (forall u :: u in order <==> u in visited)
  }

  lemma ListsOnceStep(t: Table, visited: set<Url>, order: seq<Url>, u: Url)
    requires ListsOnce(t, visited, order)
    requires u in t && u !in visited
    ensures ListsOnce(t, visited + {u}, order + [u])
  {
    assert |visited + {u}| == |visited| + 1;
    assert u !in order;
  }

  /** Taking one more key out of the keys still to visit extends the listing by that key. */
  lemma VisitStep(t: Table, remaining: set<Url>, order: seq<Url>, u: Url)
    requires remaining <= t.Keys && ListsOnce(t, t.Keys - remaining, order)
    requires u in remaining
    ensures ListsOnce(t, t.Keys - (remaining - {u}), order + [u])
  {
    assert t.Keys - (remaining - {u}) == (t.Keys - remaining) + {u};
    ListsOnceStep(t, t.Keys - remaining, order, u);
  }

  /**
    Saving and loading again gives the same table, provided URL parsing reads
    every saved URL's absolute string back as that URL.
   */
  lemma ReloadRestoresTable(t: Table, loaded: Table, parseUrl: string -> Option<Url>)
    requires forall u :: u in t ==> parseUrl(AbsoluteString(u)) == Some(u)
    requires DecodedFrom(loaded, Persisted(t), parseUrl)
    ensures loaded == t
  {
    forall u | u in loaded
      ensures u in t && loaded[u] == t[u]
    {
      LoadedEntryIsSaved(t, loaded, parseUrl, u);
    }
    forall u | u in t
      ensures u in loaded
    {
      SavedEntryIsLoaded(t, loaded, parseUrl, u);
    }
    SameEntriesSameTable(loaded, t);
  }

  // A map identity (equal entries, equal table); it only splits verification work.
  lemma SameEntriesSameTable(a: Table, b: Table)
    requires forall u :: u in a ==> u in b && a[u] == b[u]
    requires forall u :: u in b ==> u in a
    ensures a == b
  {
  }

  /** Every saved entry is read back. */
  lemma SavedEntryIsLoaded(t: Table, loaded: Table, parseUrl: string -> Option<Url>, u: Url)
    requires forall u :: u in t ==> parseUrl(AbsoluteString(u)) == Some(u)
    requires DecodedFrom(loaded, Persisted(t), parseUrl)
    requires u in t
    ensures u in loaded
  {
    assert AbsoluteString(u) in Persisted(t) && parseUrl(AbsoluteString(u)) == Some(u);
  }

  /** One entry of the reloaded table came from the same entry of the saved one. */
  lemma LoadedEntryIsSaved(t: Table, loaded: Table, parseUrl: string -> Option<Url>, u: Url)
    requires forall u :: u in t ==> parseUrl(AbsoluteString(u)) == Some(u)
    requires DecodedFrom(loaded, Persisted(t), parseUrl)
    requires u in loaded
    ensures u in t && loaded[u] == t[u]
  {
    var d := Persisted(t);
    var k :| k in d && parseUrl(k) == Some(u) && loaded[u] == d[k];
    var v :| v in t && k == AbsoluteString(v);
    assert parseUrl(k) == Some(v);
  }
}
