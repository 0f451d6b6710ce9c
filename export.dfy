/** `generatePDF`: fetch every image of the setlist, lay each successful one out
    on its own page of a jsPDF document, and save the document under a dated
    name, or report an error when no image could be loaded. */
module Export {
  import opened Wrappers
  import opened Setlist
  import opened Fetch
  import opened Layout
  import opened FileName

  /** One entry of `results`: `{song, data, error}` with `null` as `None`. */
  datatype ItemOutcome = ItemOutcome(song: Song, data: Option<DataUrl>, error: Option<FetchError>)

  /** What the async mapper produces for one song: the data URL when `fetchImage`
      resolves, the error when it rejects. */
  function OutcomeOf(song: Song, encode: string -> string,
                     net: string -> Response, convert: Bytes -> Conversion): (o: ItemOutcome)
    ensures o.song == song
    ensures o.data.Some? != o.error.Some?
    ensures o.data.Some? <==> FetchImageSpec(song.imageUrl, encode, net, convert).Ok?
  {
    match FetchImageSpec(song.imageUrl, encode, net, convert)
    case Ok(d) => ItemOutcome(song, Some(d), None)
    case Err(e) => ItemOutcome(song, None, Some(e))
  }

  /** `await Promise.all(setlist.map(...))`: one outcome per song, in setlist order. */
  function Outcomes(songs: seq<Song>, encode: string -> string,
                    net: string -> Response, convert: Bytes -> Conversion): seq<ItemOutcome>
  {
    seq(|songs|, i requires 0 <= i < |songs| => OutcomeOf(songs[i], encode, net, convert))
  }

  /** The outcomes, computed by running the fetch chain for each song in turn. */
  method CollectOutcomes(songs: seq<Song>, encode: string -> string,
                         net: string -> Response, convert: Bytes -> Conversion)
    returns (results: seq<ItemOutcome>)
    ensures |results| == |songs|
    ensures forall i :: 0 <= i < |songs| ==> results[i].song == songs[i]
    ensures forall i :: 0 <= i < |songs| ==> results[i].data.Some? != results[i].error.Some?
    ensures results == Outcomes(songs, encode, net, convert)
  {
    results := [];
    for i := 0 to |songs|
      invariant results == Outcomes(songs[..i], encode, net, convert)
    {
      var r, _ := FetchImage(songs[i].imageUrl, encode, net, convert);
      var outcome := match r
        case Ok(d) => ItemOutcome(songs[i], Some(d), None)
        case Err(e) => ItemOutcome(songs[i], None, Some(e));
      results := results + [outcome];
    }
    assert songs[..|songs|] == songs;
  }

  /** The negation of the loop's `item.error || !item.data` test. A data URL is
      never empty, so `!item.data` holds only when the data is absent. */
  predicate Placeable(o: ItemOutcome)
  {
    o.error.None? && o.data.Some?
  }

  /** The outcomes the page loop places, in their original order. */
  function Successes(results: seq<ItemOutcome>): (s: seq<ItemOutcome>)
    ensures |s| <= |results|
    ensures forall o :: o in s ==> Placeable(o) && o in results
  {
    if results == [] then []
    else
      var last := results[|results| - 1];
      Successes(results[..|results| - 1]) + (if Placeable(last) then [last] else [])
  }

  /** `getImageProperties`: the pixel size of an image, always positive here. */
  type Extent = r: real | r > 0.0 witness 1.0
  datatype ImageSize = ImageSize(width: Extent, height: Extent)

  /** One `addImage(imgData, 'JPEG', x, y, w, h)` call. */
  datatype PlacedImage = PlacedImage(data: DataUrl, at: Placement)

  /** The jsPDF document builder: a list of pages, each holding the images
      drawn on it. A new document has one empty page. */
  class PdfDocument {
    const pageWidth: real
    const pageHeight: real
    var pages: seq<seq<PlacedImage>>

    ghost predicate Valid()
      reads this
    {
      pageWidth > 0.0 && pageHeight > 0.0 && |pages| >= 1
    }

    constructor (width: real, height: real)
      requires width > 0.0 && height > 0.0
      ensures Valid() && pageWidth == width && pageHeight == height
      ensures pages == [[]]
    {
      pageWidth, pageHeight := width, height;
      pages := [[]];
    }

    /** `addPage()`: a new empty page becomes the current one. */
    method AddPage()
      requires Valid()
      modifies this
      ensures Valid()
      ensures pages == old(pages) + [[]]
    {
      pages := pages + [[]];
    }

    /** `addImage(...)`: draws on the current (last) page. */
    method AddImage(img: PlacedImage)
      requires Valid()
      modifies this
      ensures Valid()
      ensures |pages| == |old(pages)|
      ensures pages[..|pages| - 1] == old(pages)[..|old(pages)| - 1]
      ensures pages[|pages| - 1] == old(pages)[|old(pages)| - 1] + [img]
    {
      pages := pages[..|pages| - 1] + [pages[|pages| - 1] + [img]];
    }
  }

  /** The image and placement the loop produces for a placeable outcome. */
  function PlaceOutcome(o: ItemOutcome, dims: DataUrl -> ImageSize, pageW: real, pageH: real): PlacedImage
    requires Placeable(o) && pageW > 0.0 && pageH > 0.0
  {
    var size := dims(o.data.value);
    PlacedImage(o.data.value, FitCentered(size.width, size.height, pageW, pageH))
  }

  /** One page per placeable outcome, in order, holding that outcome's image only. */
  function PlacedPages(results: seq<ItemOutcome>, dims: DataUrl -> ImageSize,
                       pageW: real, pageH: real): seq<seq<PlacedImage>>
    requires pageW > 0.0 && pageH > 0.0
  {
    if results == [] then []
    else
      var last := results[|results| - 1];
      PlacedPages(results[..|results| - 1], dims, pageW, pageH)
      + (if Placeable(last) then [[PlaceOutcome(last, dims, pageW, pageH)]] else [])
  }

  /** The pages of the finished document: the placed pages, or the single empty
      page a new document starts with when nothing was placed. */
  function DocumentPages(results: seq<ItemOutcome>, dims: DataUrl -> ImageSize,
                         pageW: real, pageH: real): seq<seq<PlacedImage>>
    requires pageW > 0.0 && pageH > 0.0
  {
    var p := PlacedPages(results, dims, pageW, pageH);
    if p == [] then [[]] else p
  }

  /** The placed pages correspond one to one, in order, to the successful
      outcomes: the k-th page holds exactly the k-th successful image. */
  lemma {:induction false} PlacedPagesMatchSuccesses(results: seq<ItemOutcome>, dims: DataUrl -> ImageSize,
                                                     pageW: real, pageH: real)
    requires pageW > 0.0 && pageH > 0.0
    ensures |PlacedPages(results, dims, pageW, pageH)| == |Successes(results)|
    ensures forall k :: 0 <= k < |Successes(results)| ==>
              PlacedPages(results, dims, pageW, pageH)[k] == [PlaceOutcome(Successes(results)[k], dims, pageW, pageH)]
  {
    if results != [] {
      PlacedPagesMatchSuccesses(results[..|results| - 1], dims, pageW, pageH);
    }
  }

  /** The body of the page loop after the optional `addPage`: reads the image
      size, computes the centred fit and draws the image on the current page. */
  method DrawImage(doc: PdfDocument, item: ItemOutcome, dims: DataUrl -> ImageSize)
    requires doc.Valid() && Placeable(item)
    modifies doc
    ensures doc.Valid()
    ensures doc.pages == old(doc.pages)[..|old(doc.pages)| - 1]
                         + [old(doc.pages)[|old(doc.pages)| - 1] + [PlaceOutcome(item, dims, doc.pageWidth, doc.pageHeight)]]
  {
    var imgData := item.data.value;
    var size := dims(imgData);
    var placement := FitCentered(size.width, size.height, doc.pageWidth, doc.pageHeight);
    doc.AddImage(PlacedImage(imgData, placement));
  }

  /** The page loop of `generatePDF` on a fresh document: skips failures,
      calls `addPage` before every placed image but the first, and counts the
      placed images in `pageIndex`. */
  method AddImagesToDocument(doc: PdfDocument, results: seq<ItemOutcome>, dims: DataUrl -> ImageSize)
    returns (pageIndex: nat)
    requires doc.Valid() && doc.pages == [[]]
    modifies doc
    ensures doc.Valid()
    ensures pageIndex == |Successes(results)|
    ensures doc.pages == DocumentPages(results, dims, doc.pageWidth, doc.pageHeight)
  {
    pageIndex := 0;
    for i := 0 to |results|
      invariant doc.Valid()
      invariant pageIndex == |PlacedPages(results[..i], dims, doc.pageWidth, doc.pageHeight)|
      invariant doc.pages == DocumentPages(results[..i], dims, doc.pageWidth, doc.pageHeight)
    {
      var item := results[i];
      ghost var pw, ph := doc.pageWidth, doc.pageHeight;
      assert results[..i + 1][..i] == results[..i];
      if item.error.Some? || item.data.None? {
        continue;
      }
      if pageIndex > 0 {
        doc.AddPage();
      }
      ghost var current := doc.pages;
      ghost var placed := PlaceOutcome(item, dims, pw, ph);
      assert current[|current| - 1] + [placed] == [placed];
      DrawImage(doc, item, dims);
      assert doc.pages == current[..|current| - 1] + [[placed]];
      pageIndex := pageIndex + 1;
    }
    assert results[..|results|] == results;
    PlacedPagesMatchSuccesses(results, dims, doc.pageWidth, doc.pageHeight);
  }

  /** Fetching is per song: the outcomes of a concatenated setlist are the
      outcomes of its parts, so a failure for one song neither removes nor
      reorders the others. */
  lemma OutcomesConcat(a: seq<Song>, b: seq<Song>, encode: string -> string,
                       net: string -> Response, convert: Bytes -> Conversion)
    ensures Outcomes(a + b, encode, net, convert) == Outcomes(a, encode, net, convert) + Outcomes(b, encode, net, convert)
  {
  }

  /** Filtering the outcomes keeps exactly the placeable ones and keeps their
      order: it distributes over concatenation. */
  lemma {:induction false} SuccessesConcat(a: seq<ItemOutcome>, b: seq<ItemOutcome>)
    ensures Successes(a + b) == Successes(a) + Successes(b)
    decreases |b|
  {
    if b == [] {
      assert a + b == a;
    } else {
      var init := b[..|b| - 1];
      assert (a + b)[..|a + b| - 1] == a + init;
      SuccessesConcat(a, init);
    }
  }

  lemma {:induction false} SuccessesMembers(results: seq<ItemOutcome>, o: ItemOutcome)
    ensures o in Successes(results) <==> o in results && Placeable(o)
  {
    if results != [] {
      var init := results[..|results| - 1];
      SuccessesMembers(init, o);
      assert results == init + [results[|results| - 1]];
    }
  }

  /** A song's image loaded: its fetch chain resolved with a data URL. */
  predicate Loaded(song: Song, encode: string -> string, net: string -> Response, convert: Bytes -> Conversion)
  {
    FetchImageSpec(song.imageUrl, encode, net, convert).Ok?
  }

  function LoadedSongs(songs: seq<Song>, encode: string -> string,
                       net: string -> Response, convert: Bytes -> Conversion): seq<Song>
  {
    if songs == [] then []
    else
      var last := songs[|songs| - 1];
      LoadedSongs(songs[..|songs| - 1], encode, net, convert)
      + (if Loaded(last, encode, net, convert) then [last] else [])
  }

  /** The outcomes that reach the document are exactly those of the songs whose
      image loaded, in setlist order. */
  lemma {:induction false} SuccessesAreLoadedSongs(songs: seq<Song>, encode: string -> string,
                                                   net: string -> Response, convert: Bytes -> Conversion)
    ensures Successes(Outcomes(songs, encode, net, convert))
            == Outcomes(LoadedSongs(songs, encode, net, convert), encode, net, convert)
  {
    if songs != [] {
      var init := songs[..|songs| - 1];
      var last := songs[|songs| - 1];
      assert songs == init + [last];
      OutcomesConcat(init, [last], encode, net, convert);
      SuccessesConcat(Outcomes(init, encode, net, convert), Outcomes([last], encode, net, convert));
      SuccessesAreLoadedSongs(init, encode, net, convert);
      assert [] + Outcomes([last], encode, net, convert) == [OutcomeOf(last, encode, net, convert)];
      OutcomesConcat(LoadedSongs(init, encode, net, convert),
                     if Loaded(last, encode, net, convert) then [last] else [], encode, net, convert);
    }
  }

  /** When no song's image loads, nothing reaches the document, so the export
      ends with the alert and the document is never saved. */
  lemma {:induction false} NothingLoadedNothingPlaced(songs: seq<Song>, encode: string -> string,
                                                      net: string -> Response, convert: Bytes -> Conversion)
    requires forall song :: song in songs ==> !Loaded(song, encode, net, convert)
    ensures Successes(Outcomes(songs, encode, net, convert)) == []
  {
    SuccessesAreLoadedSongs(songs, encode, net, convert);
    NoLoadedSongs(songs, encode, net, convert);
  }

  lemma {:induction false} NoLoadedSongs(songs: seq<Song>, encode: string -> string,
                                         net: string -> Response, convert: Bytes -> Conversion)
    requires forall song :: song in songs ==> !Loaded(song, encode, net, convert)
    ensures LoadedSongs(songs, encode, net, convert) == []
  {
    if songs != [] {
      NoLoadedSongs(songs[..|songs| - 1], encode, net, convert);
    }
  }

  /** Every page of a document with at least one success holds exactly one image,
      fitted inside the page with its proportions kept. */
  lemma PagesHoldOneFittedImage(results: seq<ItemOutcome>, dims: DataUrl -> ImageSize,
                                pageW: real, pageH: real, k: nat)
    requires pageW > 0.0 && pageH > 0.0
    requires k < |Successes(results)|
    ensures |DocumentPages(results, dims, pageW, pageH)| == |Successes(results)|
    ensures |DocumentPages(results, dims, pageW, pageH)[k]| == 1
    ensures Placeable(Successes(results)[k])
    ensures var img := DocumentPages(results, dims, pageW, pageH)[k][0];
            var size := dims(img.data);
            img.data == Successes(results)[k].data.value
            && FitsPage(img.at, size.width, size.height, pageW, pageH)
  {
    PlacedPagesMatchSuccesses(results, dims, pageW, pageH);
    assert Successes(results)[k] in Successes(results);
  }

  /** Three songs whose first and third images load and whose second loads only
      through corsproxy.io give a three-page document in setlist order, the
      second page showing the corsproxy.io image. */
  lemma ThirdStrategyForMiddleSong(a: Song, b: Song, c: Song, encode: string -> string,
                                   net: string -> Response, convert: Bytes -> Conversion,
                                   dims: DataUrl -> ImageSize, pageW: real, pageH: real,
                                   bytes: Bytes, d: DataUrl)
    requires pageW > 0.0 && pageH > 0.0
    requires Loaded(a, encode, net, convert) && Loaded(c, encode, net, convert)
    requires Attempt(Direct, b.imageUrl, encode, net, convert) == FellThrough
    requires Attempt(Wsrv, b.imageUrl, encode, net, convert) == FellThrough
    requires net(Endpoint(CorsProxy, b.imageUrl, encode)) == Http(true, Blob(bytes))
    requires convert(bytes) == Converted(d)
    ensures var pages := DocumentPages(Outcomes([a, b, c], encode, net, convert), dims, pageW, pageH);
            |pages| == 3 && |pages[0]| == |pages[1]| == |pages[2]| == 1
            && pages[0][0].data == FetchImageSpec(a.imageUrl, encode, net, convert).value
            && pages[1][0].data == d
            && pages[2][0].data == FetchImageSpec(c.imageUrl, encode, net, convert).value
  {
    var results := Outcomes([a, b, c], encode, net, convert);
    SuccessesAreLoadedSongs([a, b, c], encode, net, convert);
    assert Loaded(b, encode, net, convert);
    assert [a, b, c][..2] == [a, b] && [a, b][..1] == [a] && [a][..0] == [];
    assert LoadedSongs([a], encode, net, convert) == [a];
    assert LoadedSongs([a, b], encode, net, convert) == [a, b];
    assert LoadedSongs([a, b, c], encode, net, convert) == [a, b, c];
    PlacedPagesMatchSuccesses(results, dims, pageW, pageH);
  }

  datatype ExportError = NoImageLoaded

  /** How a click on the export button ends: nothing happens for an empty
      setlist, the document is saved, or the user is alerted. */
  datatype ExportResult =
    | NothingToExport
    | Saved(name: string, pages: seq<seq<PlacedImage>>)
    | Alerted(error: ExportError)

  /** `generatePDF` on the current setlist. The network, the conversion and the
      image properties are oracles; the page size and the date are inputs. */
  method GeneratePdf(setlist: SongList, today: LocalDate, pageW: real, pageH: real,
                     encode: string -> string, net: string -> Response,
                     convert: Bytes -> Conversion, dims: DataUrl -> ImageSize)
    returns (res: ExportResult)
    requires pageW > 0.0 && pageH > 0.0
    ensures setlist.songs == [] ==> res == NothingToExport
    ensures setlist.songs != [] && Successes(Outcomes(setlist.songs, encode, net, convert)) == [] ==>
              res == Alerted(NoImageLoaded)
    ensures Successes(Outcomes(setlist.songs, encode, net, convert)) != [] ==>
              res == Saved(SaveName(today), DocumentPages(Outcomes(setlist.songs, encode, net, convert), dims, pageW, pageH))
  {
    if setlist.songs == [] {
      return NothingToExport;
    }
    var doc := new PdfDocument(pageW, pageH);
    var results := CollectOutcomes(setlist.songs, encode, net, convert);
    var pageIndex := AddImagesToDocument(doc, results, dims);
    if pageIndex == 0 {
      return Alerted(NoImageLoaded);
    }
    res := Saved(SaveName(today), doc.pages);
  }
}
