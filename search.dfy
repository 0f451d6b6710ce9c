/** The catalog search behind the search box: songs whose lower-cased title
    contains the lower-cased query, at most fifty of them, in catalog order.
    `lower` stands for `String.prototype.toLowerCase`, which the model leaves
    uninterpreted. */
module Search {
  import opened Text
  import opened Setlist

  /** How many results the page shows at most. */
  const ResultLimit: nat := 50

  predicate Matches(song: Song, query: string, lower: string -> string)
  {
    Includes(lower(song.title), query)
  }

  /** `catalog.filter(song => lower(song.title).includes(query))`. */
  function Filter(catalog: seq<Song>, query: string, lower: string -> string): seq<Song>
  {
    if catalog == [] then []
    else
      (if Matches(catalog[0], query, lower) then [catalog[0]] else [])
      + Filter(catalog[1..], query, lower)
  }

  /** The search box handler: lower-case the input, filter, keep the first fifty. */
  function SearchResults(catalog: seq<Song>, input: string, lower: string -> string): seq<Song>
  {
    var filtered := Filter(catalog, lower(input), lower);
    if |filtered| <= ResultLimit then filtered else filtered[..ResultLimit]
  }

  /** What the page shows before anything is typed: the first fifty songs. */
  function InitialResults(catalog: seq<Song>): seq<Song>
  {
    if |catalog| <= ResultLimit then catalog else catalog[..ResultLimit]
  }

  /** Filtering keeps exactly the matching songs: a song is in the result iff it
      is in the catalog and matches, and the result is never longer than the catalog. */
  lemma {:induction false} FilterMembers(catalog: seq<Song>, query: string, lower: string -> string, song: Song)
    ensures song in Filter(catalog, query, lower) <==> song in catalog && Matches(song, query, lower)
    ensures |Filter(catalog, query, lower)| <= |catalog|
  {
    if catalog != [] {
      FilterMembers(catalog[1..], query, lower, song);
      assert catalog == [catalog[0]] + catalog[1..];
    }
  }

  /** Filtering preserves catalog order: it distributes over concatenation, so
      the matches of an earlier part of the catalog come before those of a later part. */
  lemma {:induction false} FilterConcat(a: seq<Song>, b: seq<Song>, query: string, lower: string -> string)
    ensures Filter(a + b, query, lower) == Filter(a, query, lower) + Filter(b, query, lower)
  {
    if a == [] {
      assert a + b == b;
    } else {
      assert (a + b)[1..] == a[1..] + b;
      FilterConcat(a[1..], b, query, lower);
    }
  }

  /** The results are at most fifty matching catalog songs, they are the leading
      matches in catalog order, and when there are no more than fifty matches
      every match is shown. */
  lemma SearchResultsSpec(catalog: seq<Song>, input: string, lower: string -> string)
    ensures |SearchResults(catalog, input, lower)| <= ResultLimit
    ensures |SearchResults(catalog, input, lower)| ==
              if |Filter(catalog, lower(input), lower)| <= ResultLimit
              then |Filter(catalog, lower(input), lower)| else ResultLimit
    ensures SearchResults(catalog, input, lower) <= Filter(catalog, lower(input), lower)
    ensures forall song :: song in SearchResults(catalog, input, lower) ==>
              song in catalog && Matches(song, lower(input), lower)
    ensures |Filter(catalog, lower(input), lower)| <= ResultLimit ==>
              forall song :: song in catalog && Matches(song, lower(input), lower) ==>
                song in SearchResults(catalog, input, lower)
  {
    var query := lower(input);
    var f := Filter(catalog, query, lower);
    forall song | song in SearchResults(catalog, input, lower)
      ensures song in catalog && Matches(song, query, lower)
    {
      assert song in f;
      FilterMembers(catalog, query, lower, song);
    }
    forall song | |f| <= ResultLimit && song in catalog && Matches(song, query, lower)
      ensures song in SearchResults(catalog, input, lower)
    {
      FilterMembers(catalog, query, lower, song);
    }
  }

  /** Every title includes the empty query, so filtering by it keeps everything. */
  lemma {:induction false} FilterEmptyQuery(catalog: seq<Song>, lower: string -> string)
    ensures Filter(catalog, "", lower) == catalog
  {
    if catalog != [] {
      assert Includes(lower(catalog[0].title), "");
      FilterEmptyQuery(catalog[1..], lower);
    }
  }

  /** Clearing the search box (when lower-casing leaves the empty string empty)
      shows the same songs as the initial display. */
  lemma EmptyInputShowsInitial(catalog: seq<Song>, lower: string -> string)
    requires lower("") == ""
    ensures SearchResults(catalog, "", lower) == InitialResults(catalog)
  {
    FilterEmptyQuery(catalog, lower);
  }
}
