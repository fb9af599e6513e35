/**
 * Sheet books (fftcg/book.py): a card list sorted by element and name,
 * cut into sheets of `capacity` cards, each sheet an image with the card
 * faces in slots 0, 1, ... and the card back in the last slot.
 */
module Books {
  import opened Wrappers
  import opened Strings
  import opened Sorting
  import opened Grids
  import Codes
  import CardRecords
  import Collections
  import Utils

  type Card = CardRecords.Card

  const FACE_URL_PREFIX := "https://fftcg.cdn.sewest.net/images/cards/full/"

  /** Face image URL of a card in a language. */
  function FaceUrl(c: Card, language: string): string {
    FACE_URL_PREFIX + Codes.Str(c.code) + "_" + language + ".jpg"
  }

  /** One face URL per card, in card order, then the back URL. */
  function Urls(cards: seq<Card>, language: string): (urls: seq<string>)
    ensures |urls| == |cards| + 1 && urls[|cards|] == Utils.CARD_BACK_URL
    ensures forall i :: 0 <= i < |cards| ==> urls[i] == FaceUrl(cards[i], language)
  {
    seq(|cards|, i requires 0 <= i < |cards| => FaceUrl(cards[i], language)) + [Utils.CARD_BACK_URL]
  }

  /** `ImageLoader.load`: one image per URL, in request order, resized to the resolution. */
  function Load(urls: seq<string>, resolution: Grid): (images: seq<Image>)
    ensures |images| == |urls|
    ensures forall i :: 0 <= i < |urls| ==> images[i] == Image(urls[i], resolution.x, resolution.y)
  {
    seq(|urls|, i requires 0 <= i < |urls| => Image(urls[i], resolution.x, resolution.y))
  }

  function NameKey(c: Card): Key { Text(c.name) }

  /** "Multi" for a card of several elements, else its one element. */
  function ElementKey(c: Card): Key {
    Text(if |c.elements| > 1 then "Multi" else if c.elements == [] then "" else c.elements[0])
  }

  /** Where `paste` puts each of `faces`, slot i for face i. */
  function FaceLayout(g: Grid, faces: seq<Image>): map<(int, int), Image>
    requires g.x != 0
  {
    if faces == [] then map[]
    else
      var last := faces[|faces| - 1];
      FaceLayout(g, faces[..|faces| - 1])[SlotPosition(g, |faces| - 1, last.width, last.height).value := last]
  }

  /** A finished page: the faces, then the back in slot `capacity`. */
  function PageLayout(g: Grid, faces: seq<Image>, back: Image): map<(int, int), Image>
    requires g.x != 0
  {
    FaceLayout(g, faces)[SlotPosition(g, Capacity(g), back.width, back.height).value := back]
  }

  function Slot(g: Grid, i: int, w: int, h: int): (int, int)
    requires g.x != 0
  {
    SlotPosition(g, i, w, h).value
  }

  /** Faces of one size land in their own slots and nowhere else. */
  lemma {:induction false} FaceLayoutSlots(g: Grid, faces: seq<Image>, w: int, h: int)
    requires g.x > 0 && w > 0 && h > 0
    requires forall i :: 0 <= i < |faces| ==> faces[i].width == w && faces[i].height == h
    ensures forall i :: 0 <= i < |faces| ==>
              Slot(g, i, w, h) in FaceLayout(g, faces) && FaceLayout(g, faces)[Slot(g, i, w, h)] == faces[i]
    ensures forall p :: p in FaceLayout(g, faces) <==> exists i :: 0 <= i < |faces| && p == Slot(g, i, w, h)
  {
    if faces != [] {
      var n := |faces| - 1;
      var init := faces[..n];
      FaceLayoutSlots(g, init, w, h);
      forall i | 0 <= i < n ensures Slot(g, i, w, h) != Slot(g, n, w, h) {
        SlotPositionsDistinct(g, i, n, w, h);
      }
      assert forall i :: 0 <= i < n ==> init[i] == faces[i];
    }
  }

  /**
   * On a page of at most `capacity` faces, face i is in slot i and the back
   * is in slot `capacity`; no other cell is painted.
   */
  lemma PageSlots(g: Grid, faces: seq<Image>, back: Image, w: int, h: int)
    requires g.x > 0 && g.y > 0 && w > 0 && h > 0 && back.width == w && back.height == h
    requires |faces| <= Capacity(g)
    requires forall i :: 0 <= i < |faces| ==> faces[i].width == w && faces[i].height == h
    ensures forall i :: 0 <= i < |faces| ==>
              Slot(g, i, w, h) in PageLayout(g, faces, back) && PageLayout(g, faces, back)[Slot(g, i, w, h)] == faces[i]
    ensures PageLayout(g, faces, back)[Slot(g, Capacity(g), w, h)] == back
    ensures forall p :: p in PageLayout(g, faces, back) <==>
                        p == Slot(g, Capacity(g), w, h) || exists i :: 0 <= i < |faces| && p == Slot(g, i, w, h)
  {
    FaceLayoutSlots(g, faces, w, h);
    forall i | 0 <= i < |faces| ensures Slot(g, i, w, h) != Slot(g, Capacity(g), w, h) {
      SlotPositionsDistinct(g, i, Capacity(g), w, h);
    }
  }

  datatype BookPage = BookPage(image: Page, cards: seq<Card>)

  /** `f"{filename}_{i}.jpg"` */
  function PageFileName(filename: string, i: nat): string {
    filename + "_" + NatStr(i) + ".jpg"
  }

  /** Distinct pages are saved under distinct names. */
  lemma PageFileNamesDistinct(filename: string, i: nat, j: nat)
    ensures PageFileName(filename, i) == PageFileName(filename, j) ==> i == j
  {
    var a, b := PageFileName(filename, i), PageFileName(filename, j);
    if a == b {
      var k := |filename| + 1;
      assert a[k..|a| - 4] == NatStr(i);
      assert b[k..|b| - 4] == NatStr(j);
      NatStrInjective(i, j);
    }
  }

  /** The faces loaded for a list of cards: the URL list without its last entry, the back. */
  function FaceImages(cards: seq<Card>, language: string, resolution: Grid): (faces: seq<Image>)
    ensures |faces| == |cards|
    ensures forall i :: 0 <= i < |cards| ==> faces[i] == Image(FaceUrl(cards[i], language), resolution.x, resolution.y)
  {
    var images := Load(Urls(cards, language), resolution);
    images[..|images| - 1]
  }

  /** The loader's last image is the card back, the ones before it the faces. */
  lemma LoadedBack(cards: seq<Card>, language: string, resolution: Grid)
    ensures var images := Load(Urls(cards, language), resolution);
            && images[|images| - 1] == Image(Utils.CARD_BACK_URL, resolution.x, resolution.y)
            && images[..|images| - 1] == FaceImages(cards, language, resolution)
  {
  }

  /** Face j of page k is the image of card j of page k. */
  lemma PageImagesMatchCards(cards: seq<Card>, language: string, resolution: Grid, n: int, k: nat, j: nat)
    requires n >= 1
    requires k < |ChunksOf(cards, n)| && j < |ChunksOf(cards, n)[k]|
    ensures |ChunksOf(FaceImages(cards, language, resolution), n)| == |ChunksOf(cards, n)|
    ensures |ChunksOf(FaceImages(cards, language, resolution), n)[k]| == |ChunksOf(cards, n)[k]|
    ensures ChunksOf(FaceImages(cards, language, resolution), n)[k][j]
         == Image(FaceUrl(ChunksOf(cards, n)[k][j], language), resolution.x, resolution.y)
  {
    var faces := FaceImages(cards, language, resolution);
    ChunksCount(cards, n);
    ChunksCount(faces, n);
    ChunkAt(cards, n, k);
    ChunkAt(faces, n, k);
  }

  /**
   * Page j holds card chunk j and is the page image of image chunk j; the
   * page images are distinct objects.
   */
  predicate Composed(pages: seq<BookPage>, grid: Grid, size: (int, int), imageChunks: seq<seq<Image>>,
                     cardChunks: seq<seq<Card>>, back: Image)
    reads set j | 0 <= j < |pages| :: pages[j].image
  {
    && |pages| == |imageChunks| == |cardChunks|
    && (pages != [] ==> grid.x != 0)
    && (forall j :: 0 <= j < |pages| ==>
          && pages[j].cards == cardChunks[j]
          && pages[j].image.size == size
          && pages[j].image.cells == PageLayout(grid, imageChunks[j], back))
    && (forall j, l :: 0 <= j < l < |pages| ==> pages[j].image != pages[l].image)
  }

  /** One page image: each face pasted at its slot, then the back at slot `capacity`. */
  method ComposePage(grid: Grid, size: (int, int), faces: seq<Image>, back: Image) returns (page: Page)
    requires grid.x != 0
    ensures fresh(page) && page.size == size
    ensures page.cells == PageLayout(grid, faces, back)
  {
    page := new Page(size);
    var i := 0;
    while i < |faces|
      modifies page
      invariant 0 <= i <= |faces|
      invariant page.cells == FaceLayout(grid, faces[..i])
    {
      var _ := Paste(grid, page, i, faces[i]);
      assert faces[..i + 1][..i] == faces[..i];
      i := i + 1;
    }
    assert faces[..i] == faces;
    var _ := Paste(grid, page, Capacity(grid), back);
  }

  /** The page loop: the image chunks zipped with the card chunks. */
  method ComposePages(grid: Grid, size: (int, int), imageChunks: seq<seq<Image>>, cardChunks: seq<seq<Card>>, back: Image)
    returns (pages: seq<BookPage>)
    requires grid.x != 0 || imageChunks == []
    requires |imageChunks| == |cardChunks|
    ensures Composed(pages, grid, size, imageChunks, cardChunks, back)
    ensures forall j :: 0 <= j < |pages| ==> fresh(pages[j].image)
  {
    pages := [];
    var k := 0;
    while k < |imageChunks|
      invariant 0 <= k <= |imageChunks| && |pages| == k
      invariant forall j :: 0 <= j < k ==>
                  && pages[j].cards == cardChunks[j]
                  && pages[j].image.size == size
                  && pages[j].image.cells == PageLayout(grid, imageChunks[j], back)
      invariant forall j :: 0 <= j < k ==> fresh(pages[j].image)
      invariant forall j, l :: 0 <= j < l < k ==> pages[j].image != pages[l].image
    {
      var page := ComposePage(grid, size, imageChunks[k], back);
      pages := pages + [BookPage(page, cardChunks[k])];
      k := k + 1;
    }
  }

  /** Sort by name, then (stably) by element: the order of element, then name. */
  method SortCards(cards: Collections.Cards)
    modifies cards
    ensures cards.items == SortBy(old(cards.items), Lex(ElementKey, NameKey))
    ensures |cards.items| == |old(cards.items)|
  {
    cards.Sort(NameKey);
    cards.Sort(ElementKey);
    SortTwice(old(cards.items), NameKey, ElementKey);
    SortSortedPermutation(old(cards.items), Lex(ElementKey, NameKey));
    assert |multiset(cards.items)| == |multiset(old(cards.items))|;
  }

  /** Lines of `Book.__init__` after the sort: load the images, chunk them into pages, paste each page. */
  method Compose(sorted: seq<Card>, grid: Grid, resolution: Grid, language: string) returns (pages: seq<BookPage>)
    requires Capacity(grid) >= 1 || sorted == []
    ensures Composed(pages, grid, Mul(grid, resolution),
                     ChunksOf(FaceImages(sorted, language, resolution), Capacity(grid)),
                     ChunksOf(sorted, Capacity(grid)),
                     Image(Utils.CARD_BACK_URL, resolution.x, resolution.y))
    ensures forall k :: 0 <= k < |pages| ==> fresh(pages[k].image)
  {
    var images := Load(Urls(sorted, language), resolution);
    LoadedBack(sorted, language, resolution);
    var back := images[|images| - 1];
    images := images[..|images| - 1];

    var imageChunks := Chunks(grid, images);
    var cardChunks := Chunks(grid, sorted);
    if sorted != [] {
      ChunksCount(images, Capacity(grid));
      ChunksCount(sorted, Capacity(grid));
      assert grid.x != 0;
    }
    pages := ComposePages(grid, Mul(grid, resolution), imageChunks, cardChunks, back);
  }

  class Book {
    var pages: seq<BookPage>

    /** `Book(cards, grid, resolution, language, num_threads)` */
    constructor(cards: Collections.Cards, grid: Grid, resolution: Grid, language: string)
      requires Capacity(grid) >= 1 || cards.items == []
      requires forall i :: 0 <= i < |cards.items| ==> cards.items[i].elements != []
      modifies cards
      ensures cards.items == SortBy(old(cards.items), Lex(ElementKey, NameKey))
      ensures |cards.items| == |old(cards.items)|
      ensures Composed(pages, grid, Mul(grid, resolution),
                       ChunksOf(FaceImages(cards.items, language, resolution), Capacity(grid)),
                       ChunksOf(cards.items, Capacity(grid)),
                       Image(Utils.CARD_BACK_URL, resolution.x, resolution.y))
      ensures forall k :: 0 <= k < |pages| ==> fresh(pages[k].image)
    {
      SortCards(cards);
      var composed := Compose(cards.items, grid, resolution, language);
      pages := composed;
    }

    /** `book.save(filename)`: the files written, by name, in page order. */
    method Save(filename: string) returns (files: seq<(string, Page)>)
      ensures |files| == |pages|
      ensures forall i :: 0 <= i < |pages| ==> files[i] == (PageFileName(filename, i), pages[i].image)
    {
      files := [];
      var i := 0;
      while i < |pages|
        invariant 0 <= i <= |pages| && |files| == i
        invariant forall j :: 0 <= j < i ==> files[j] == (PageFileName(filename, j), pages[j].image)
      {
        files := files + [(PageFileName(filename, i), pages[i].image)];
        i := i + 1;
      }
    }
  }
}
