# fftcgtool card-addressing pipeline, in Dafny

fftcgtool turns Final Fantasy Trading Card Game card data into Tabletop
Simulator decks. It comes in three generations, and all three are modelled
here:

- **The root scripts** `opus.py` and `card.py`. These download the cards of one opus,
  paste their images onto sheets, and write a save file.
- **The `fftcg/` package.** It covers card codes, languages, encircled cost
  symbols, grids and chunking, card records, a pickled card database, books of
  page images, and decks addressed by face URL.
- **The `fftcgtool/` package.** It covers multi-language card records, a
  read-only and a read-write card database, opus import with elemental decks,
  deck encoding against the database, and FFDecks import.

The model covers what these programs compute:

- how a card code is parsed and compared, and how a language is normalised;
- how cards are sorted (Python's stable `list.sort`) and chunked into sheets;
- where each face lands on a page;
- how the card database merges cards and asks for face URLs;
- how a deck gives its faces the indices 1..k and every card the id
  `100 * faceIndex + slot`;
- which decks an opus or an FFDecks list produces.

Each Python module becomes one Dafny module. Classes whose fields the source
updates become Dafny classes with `modifies` clauses. The card databases,
decks, books, opus collections, a card's content and the caller's code list
are all classes of this kind. Pure code becomes datatypes and functions.
Every loop the source has becomes a `while` or `for` loop with invariants.

A few helper modules are shared:

| module | what it holds |
|---|---|
| `Wrappers` | `Option`/`Result`; `Err` carries the Python exception raised |
| `Strings` | ASCII string operations |
| `PyInt` | Python `//` and `%` |
| `Sorting` | `list.sort`, proved sorted, a permutation, stable and unique |
| `CardMaps` | the two database maps, used by both database generations |
| `Addressing` | face indices and card ids |
| `TtsObjects` | save-file objects |

Things the model cannot see become parameters:

- the card service's answer and the FFDecks service;
- the roman-numeral library;
- the regular-expression markup steps of the rules text;
- the answers typed at the upload prompt;
- the files on disk.

## Model

| member | source | states |
|---|---|---|
| Codes.ParseNumbered | fftcg/code.py:7-15 | a digit-led code "opus-serial[rarity]…" parses to exactly those digit runs and the optional C/R/H/L/S letter; trailing text after it is dropped |
| Codes.ParsePrefixed | fftcg/code.py:17-27 | "PR-n…" and "B-n…" parse to opus "PR"/"B", serial n and empty rarity |
| Codes.ParseUnknown | fftcg/code.py:29-32 | the unknown code "?-????" is itself parsed back to opus "?", serial "???", rarity "?" |
| Codes.ParseValid | fftcg/code.py:11-32 | every successful parse yields a well-formed code: one of the three recognised shapes or the unknown code |
| Codes.ParseStrRoundTrip | fftcg/code.py:11-35 | for every well-formed code, parsing its `str` gives the code back |
| Codes.ParseReadsPrefix | fftcg/code.py:7-27 | a recognised parse renders to a prefix of its input: the match is anchored at the start and never invents text |
| Codes.SameIffOpusSerial | fftcg/code.py:40-48 | two codes are equal (and hash alike) exactly when opus and serial agree; rarity plays no part |
| Codes.SerialDropsPadding | fftcg/code.py:54-56 | `serial` drops a leading zero while `str` keeps it |
| Codes.SerialDefinedIffRecognised | fftcg/code.py:54-56 | `int(serial)` fails exactly for the unknown code "???" |
| Codes.ParseFailures | fftcg/code.py:12-20 | "" fails at `code[0]`; "6x", "6-" and "PRX" fail because the match is None |
| Codes.LeadingZero | fftcg/code.py:54-56 | a leading zero does not change the value `int(serial)` reads |
| Languages.Of | fftcg/language.py:5-13 | the stored short form is always one of de/es/fr/ja/it/en |
| Languages.OfIgnoresCase | fftcg/language.py:6 | inputs equal after lower-casing give the same language |
| Languages.OfCaseVariants | fftcg/language.py:6 | upper- and lower-casing the input change nothing |
| Languages.EnglishIffUnsupported | fftcg/language.py:9-13 | the result is "en" exactly when the lower-cased input is none of the five supported forms |
| Languages.OfStrRoundTrip | fftcg/language.py:18-19 | `Language(str(l)) == l` for every language |
| Languages.OfIdempotent | fftcg/language.py:5-19 | normalising twice is normalising once |
| Languages.SameIffEqual | fftcg/language.py:21-25 | equality and hash of languages are equality of their short strings |
| Languages.ImageSuffixTable | fftcg/language.py:27-33 | the image suffix is the short form for de/es/fr/it, and "eg" exactly for ja and en |
| Languages.KeySuffixTable | fftcg/language.py:35-43 | the key suffixes are "_DE", "_ES", "_FR", "_IT", "" for ja and "_EN" |
| Languages.SuffixesDistinguish | fftcg/language.py:27-43 | distinct languages read distinct service fields; only ja and en share face images |
| Utils.EncircleSymbol | fftcg/utils.py:12-13 | an empty symbol fails at `symbol[0]` |
| Utils.FirstCharOnly | fftcg/utils.py:13 | only the first character is read, and its case does not matter |
| Utils.EncircleLetter | fftcg/utils.py:16-20 | letter k of the alphabet maps to U+24B6 + k, or to U+1F150 + k when negative |
| Utils.EncircleZero | fftcg/utils.py:21-25 | "0" maps to U+24EA, or U+1F10C when negative |
| Utils.EncircleDigit | fftcg/utils.py:26-33 | a digit d from 1 to 9 maps to U+2460 + (d - 1), or U+278A + (d - 1) when negative |
| Utils.EncircleOtherFails | fftcg/utils.py:15-32 | any other first character leaves the bases empty and `ord("")` fails |
| Utils.EncircleInjective | fftcg/utils.py:12-33 | two accepted inputs with the same result agree on their upper-cased first character and on `negative` |
| Utils.GridSlotsBelowHundred | fftcg/utils.py:4 | the default 10x7 grid has capacity 69, so every slot index is below 100 |
| Grids.Mul | fftcg/grid.py:7-9 | the product is componentwise |
| Grids.Chunks | fftcg/grid.py:24-30 | the generator loop produces the chunks of `capacity` items; they concatenate to the input, and there are none exactly for the empty list |
| Grids.ChunksConcat | fftcg/grid.py:24-30 | concatenating the chunks gives back the list |
| Grids.ChunksShape | fftcg/grid.py:24-30 | every chunk but the last holds exactly `capacity` items; the last holds between 1 and `capacity` |
| Grids.ChunksCount | fftcg/grid.py:24-30 | there are ceil(n / capacity) chunks |
| Grids.ChunkAt | fftcg/grid.py:28-30 | chunk k is the slice from k * capacity up to (k + 1) * capacity |
| Grids.ZeroCapacityStalls | fftcg/grid.py:22-30 | a 1x1 grid removes nothing from a non-empty list, so the loop never ends |
| Grids.NoCellsStall | fftcg/grid.py:22-30 | a grid with no cells has a negative capacity, and `whole[capacity:]` keeps the last items of a non-empty list, so the loop never ends either |
| Grids.SlotPositionsDistinct | fftcg/grid.py:32-35 | distinct slots are pasted at distinct positions |
| Grids.SlotInsidePage | fftcg/grid.py:32-35 | a slot of the grid lies inside the page of size grid * card size |
| Grids.BackSlotBottomRight | fftcg/grid.py:22-35 | slot `capacity` is the bottom-right cell |
| Grids.Paste | fftcg/grid.py:32-35 | the card goes to ((i mod x) * w, (i div x) * h) of its own size, and no other cell of the page changes |
| ToolGrids.Mul | fftcgtool/grid.py:5-6 | the product is componentwise and is itself a grid |
| ToolGrids.CapacityPositive | fftcgtool/grid.py:16-19 | the capacity is at least 1 exactly when x * y is at least 2 |
| ToolGrids.MulCapacity | fftcgtool/grid.py:5-19 | the product's slot count is the product of the slot counts |
| ToolGrids.MulLaws | fftcgtool/grid.py:5-6 | the product is associative and commutative |
| Collections.FileName | fftcg/cards.py:19-21 | the file name is the name lower-cased, character by character, with every space turned into "_" |
| Collections.FileNameIdempotent | fftcg/cards.py:21 | a file name has no spaces, and applying the conversion again changes nothing |
| Collections.RenderAppend | fftcg/cards.py:12-13 | `str` lists the card strings in order, joined by ", " inside brackets |
| Collections.Cards.constructor | fftcg/cards.py:5-10 | no list given means an empty collection; the name is kept |
| Collections.Cards.Sort | fftcg/cards.py:4 | sorting in place is Python's stable sort of the items |
| CardRecords.MapElements | fftcg/card.py:15-24 | every element symbol is translated, and the first unknown symbol fails the whole list |
| CardRecords.CircledSValue | fftcg/card.py:54 | the "《S》" marker becomes U+24C8, the circled S |
| CardRecords.FromDataEmptyFails | fftcg/card.py:36-42 | the empty record takes the `Code("")` path, which fails |
| CardRecords.FromDataFields | fftcg/card.py:44-73 | a record's card carries its parsed code, its name and processed text in the given language, and one translated element per "/"-separated symbol |
| CardRecords.UnknownElementFails | fftcg/card.py:70 | an element symbol outside the table fails the record |
| CardRecords.ElementsRoundTrip | fftcg/card.py:70-76 | the rendered element list splits back into the elements |
| CardRecords.BreakLinesPlain | fftcg/card.py:66 | text without "[" is left alone by the line-break step |
| CardRecords.BreakLinesMarker | fftcg/card.py:66 | a "[[br]]" marker and the whitespace around it become one blank line |
| CardRecords.BreakLinesPrefix | fftcg/card.py:66 | plain text before a marker is kept unchanged |
| Strings.ReplaceAllFirst | fftcg/card.py:54-60 | a replacement keeps the text before the first occurrence, replaces it, and continues after it |
| Strings.ReplaceAllAbsent | fftcg/card.py:54-60 | a text without the marker is left as it is |
| Strings.SplitThenJoin | fftcg/card.py:70 | joining the pieces of a split with the separator gives back the string |
| Strings.JoinThenSplit | fftcg/card.py:76 | splitting a join of separator-free pieces gives back the pieces |
| Strings.NatStrRoundTrip | fftcg/ttsdeck.py:34 | parsing `str(n)` gives n back |
| Strings.NatStrInjective | fftcg/ttsdeck.py:34 | distinct numbers render to distinct strings |
| PyInt.FloorMod | fftcg/grid.py:34 | Python's `%`: the remainder has the divisor's sign and completes the floor division |
| Sorting.SortSortedPermutation | fftcg/book.py:19-20 | `list.sort` leaves the list ordered by the key and holding the same elements |
| Sorting.SortStable | fftcg/book.py:19-20 | the elements with one key keep their relative order |
| Sorting.SortedUnique | fftcg/book.py:19-20 | being sorted and keeping every key's subsequence determines the result |
| Sorting.SortTwice | fftcg/book.py:19-20 | a stable sort by `minor` followed by one by `major` is one sort by the pair (major, minor) |
| Books.Urls | fftcg/book.py:22-27 | one face URL per card in card order, then the back URL: n + 1 URLs |
| Books.Load | fftcg/book.py:30 | the loader yields one image per URL in request order, at the requested resolution |
| Books.LoadedBack | fftcg/book.py:30-32 | the last loaded image is the back; popping it leaves the faces, one per card |
| Books.FaceImages | fftcg/book.py:30-32 | face image i is card i's face URL at the resolution |
| Books.PageImagesMatchCards | fftcg/book.py:35 | image chunk k and card chunk k have the same size, and face j of page k is the image of card j of page k |
| Books.FaceLayoutSlots | fftcg/book.py:41-42 | face j is pasted at slot j, and no other slot is filled |
| Books.PageSlots | fftcg/book.py:41-45 | faces fill slots 0 to n - 1, the back fills slot `capacity`, and nothing else is pasted |
| Books.ComposePage | fftcg/book.py:37-45 | a fresh page image of size grid * resolution, laid out as above |
| Books.ComposePages | fftcg/book.py:35-51 | one fresh page per pair of chunks, holding that card chunk and the layout of that image chunk |
| Books.SortCards | fftcg/book.py:18-20 | the caller's cards are sorted in place by element ("Multi" for several), then by name; this is one stable sort by the pair |
| Books.Compose | fftcg/book.py:22-51 | the pages are composed from the loaded faces chunked by `capacity`, with the popped back on every page |
| Books.Book.constructor | fftcg/book.py:11-51 | the caller's list ends sorted, and the pages hold the card chunks and the images of those cards |
| Books.Book.Save | fftcg/book.py:56-58 | one file per page, named "{filename}_{i}.jpg", in page order |
| Books.PageFileNamesDistinct | fftcg/book.py:58 | distinct pages are saved under distinct names |
| CardMaps.FirstRunLeavesEmptyAnswered | fftcg/carddb.py:59-63 | after a complete first run, the faces still unmapped are exactly those answered with an empty line |
| CardMaps.MergeKeys | fftcg/carddb.py:38-40 | after an update the keys are the old keys and the new cards' keys |
| CardMaps.MergeLastWins | fftcg/carddb.py:38-40 | the last card with a code is the one stored |
| CardMaps.MergeUntouched | fftcg/carddb.py:38-40 | a code no new card has keeps its old entry |
| CardMaps.MergeKeyedBy | fftcg/carddb.py:38-40 | every card stays stored under its own code |
| CardMaps.Faces | fftcg/carddb.py:51-56 | the faces collected are non-empty and include every card's non-empty face in every API language |
| CardMaps.SortedFaces | fftcg/carddb.py:51-57 | `sorted(set(faces))` is strictly increasing and holds each face once |
| CardMaps.RunPrompt | fftcg/carddb.py:59-63 | the prompt loop computes the prompt specification |
| CardMaps.PromptKeepsMapped | fftcg/carddb.py:60 | an existing mapping is never overwritten or removed |
| CardMaps.PromptNewEntries | fftcg/carddb.py:60-63 | a newly mapped face was asked for and got that non-empty answer |
| CardMaps.PromptAsksUnmapped | fftcg/carddb.py:59-61 | the faces asked for are exactly the unmapped ones, in order, while answers last |
| CardMaps.PromptUnmappedStays | fftcg/carddb.py:59-63 | a face outside the list gains no URL |
| CardMaps.PromptFaceUrls | fftcg/carddb.py:44-63 | after the prompt, an asked face resolves to its answer when that was non-empty, otherwise to itself; mapped faces resolve as before |
| CardMaps.RepromptAsksEmptyAnswered | fftcg/carddb.py:50-63 | a second run asks again for exactly the faces answered empty the first time |
| CardDatabase.CardDB.constructor | fftcg/carddb.py:18-22 | the new instance has two empty maps |
| CardDatabase.CardDB.Get | fftcg/carddb.py:26-30 | lookup succeeds exactly for a stored code, and returns a card with an equal code; rarity is ignored |
| CardDatabase.CardDB.Save | fftcg/carddb.py:32-36 | the file holds exactly the two current maps |
| CardDatabase.CardDB.Update | fftcg/carddb.py:38-42 | the cards are merged with the last write winning, the URL map is unchanged, and the file then holds both maps |
| CardDatabase.CardDB.GetFaceUrl | fftcg/carddb.py:44-48 | the mapped URL, or the face itself when none is mapped |
| CardDatabase.CardDB.UploadPrompt | fftcg/carddb.py:50-65 | prompts over the sorted distinct non-empty faces, keeps the cards, and saves both maps when input lasts |
| CardDatabase.CardDB.Load | fftcg/carddb.py:67-79 | both maps are cleared, then equal the file's pair when it exists and stay empty otherwise |
| CardDatabase.Registry.Instance | fftcg/carddb.py:18-24 | the first call creates the instance, and every later call returns that same instance |
| CardDatabase.SaveLoadRoundTrip | fftcg/carddb.py:32-79 | saving and then loading the same database gives back both maps, leaves them in the file, and every card and face lookup answers as before |
| CardDatabase.UpdateLookups | fftcg/carddb.py:26-40 | after an update, a code looks up its last card, and a code no card has looks up what it did before |
| ToolCardDatabase.CardDB.constructor | fftcgtool/carddb.py:27-31 | a new instance before any load; the model gives it empty maps where the source has none yet (see Left out) |
| ToolCardDatabase.CardDB.Load | fftcgtool/carddb.py:46-60 | both maps come from the archive, or both are empty when there is no file |
| ToolCardDatabase.CardDB.Init | fftcgtool/carddb.py:33-44 | no URL loads nothing; a local file is loaded; otherwise the download is loaded, and a failed download raises ValueError |
| ToolCardDatabase.CardDB.InitRW | fftcgtool/carddb.py:93-98 | with a path, the path is remembered and its archive loaded |
| ToolCardDatabase.CardDB.Get | fftcgtool/carddb.py:62-66 | the lookup succeeds exactly for a stored code, returning a card with an equal code |
| ToolCardDatabase.CardDB.GetFaceUrl | fftcgtool/carddb.py:68-72 | the mapped URL, or the face itself |
| ToolCardDatabase.CardDB.Save | fftcgtool/carddb.py:74-144 | read-only: nothing changes; read-write: the archive is written, then the undefined `Card.sqlite_schema` raises |
| ToolCardDatabase.CardDB.Update | fftcgtool/carddb.py:77-148 | read-only: nothing changes; read-write: last write wins per code, and the URL map is unchanged |
| ToolCardDatabase.CardDB.UploadPrompt | fftcgtool/carddb.py:80-163 | read-only: nothing; read-write: asks only for sorted, distinct, non-empty, unmapped faces, and keeps the non-empty answers |
| ToolCardDatabase.Registry.OpenCardDB | fftcgtool/carddb.py:27-44 | the first construction creates a read-only instance; later ones return the same instance and re-run its own class's `__init__`: a read-only instance keeps its maps with no URL, loads the local file or else the download, and fails with ValueError (maps kept) when both are missing; a writable one treats the URL as its path and loads that file, or empty maps when it is missing |
| ToolCardDatabase.Registry.OpenRWCardDB | fftcgtool/carddb.py:87-98 | the first construction creates a read-write instance; later ones return the same instance, a read-only one unchanged; a writable one keeps its maps with no path, and otherwise remembers the path and loads its file, or empty maps when it is missing |
| ToolCardDatabase.FirstOpenedWins | fftcgtool/carddb.py:27-31 | whichever class is constructed first fixes whether the shared instance is writable |
| ToolCardDatabase.RepromptAsksOnlyEmptyAnswered | fftcgtool/carddb.py:150-163 | when every answer was non-empty, a second prompt over the same faces asks for nothing |
| TtsDecks.LookupAll | fftcg/ttsdeck.py:15-16 | the lookup succeeds exactly when every code is stored, and gives one card per code in code order |
| TtsDecks.TTSDeck.constructor | fftcg/ttsdeck.py:10-28 | the deck keeps its name, description and cards, and its face indices are a bijection onto 1..k |
| TtsDecks.TTSDeck.Contained | fftcg/ttsdeck.py:58-69 | one card object per card, in deck order, with CardID 100 * index(face URL) + slot |
| TtsDecks.TTSDeck.TtsObject | fftcg/ttsdeck.py:30-90 | one deck object: CustomDeck has one "10"x"7" sheet per face URL keyed str(index), and DeckIDs are the contained ids in order |
| TtsDecks.TTSDeck.Save | fftcg/ttsdeck.py:92-96 | a file "{file_name}.json" holding the deck object is written exactly when the deck has cards |
| TtsDecks.New | fftcg/ttsdeck.py:10-28 | building fails exactly when some code is missing; otherwise the deck holds the looked-up cards |
| TtsDecks.CardIdLocatesFace | fftcg/ttsdeck.py:33-75 | a card's id names its CustomDeck sheet in its hundreds, and that sheet holds its face URL; the remainder is its slot |
| TtsDecks.SameSheetIffSameFace | fftcg/ttsdeck.py:25-63 | two cards share a sheet exactly when they share a face URL |
| Addressing.IndexFaces | fftcg/ttsdeck.py:19-28 | the indices cover exactly the distinct faces and form a bijection onto 1..k; the order is not specified |
| Addressing.AddFace | fftcg/ttsdeck.py:25-28 | giving a new face the next index keeps the bijection |
| Addressing.CardIdDecode | fftcg/ttsdeck.py:63 | for a slot below 100, the id divided by 100 is the face index and the remainder the slot |
| Addressing.CardIdInjective | fftcg/ttsdeck.py:63 | cards on different sheets, or in different slots, get different ids |
| Addressing.DeckKeysInjective | fftcg/ttsdeck.py:33-40 | distinct faces get distinct CustomDeck keys |
| Addressing.DeckKeysRange | fftcg/ttsdeck.py:33-40 | the CustomDeck keys are exactly "1" to str(k) |
| TtsObjects.CustomDeck | fftcgtool/ttsdeck.py:63-70 | one sheet per face, keyed str(index), with NumWidth "10", NumHeight "7", its URL and the back URL |
| TtsObjects.DeckIdsOf | fftcg/ttsdeck.py:72-75 | DeckIDs are the contained objects' CardIDs in the same order |
| ToolTtsDecks.FilterMissing | fftcgtool/ttsdeck.py:25-35 | dropping exactly the missing codes leaves the present ones in order |
| ToolTtsDecks.PresentCount | fftcgtool/ttsdeck.py:38-41 | the kept codes are the input's present codes, as many as the input has |
| ToolTtsDecks.CodeList.Remove | fftcgtool/ttsdeck.py:35 | `remove` drops the first equal code, or raises ValueError and leaves the list |
| ToolTtsDecks.RemoveAll | fftcgtool/ttsdeck.py:34-35 | every occurrence of the code is removed from the caller's list, and the others keep their order |
| ToolTtsDecks.DropInvalid | fftcgtool/ttsdeck.py:25-35 | the caller's list ends holding its present codes; each distinct missing code is reported exactly once, by an occurrence from the list |
| ToolTtsDecks.TTSDeck.constructor | fftcgtool/ttsdeck.py:15-41 | the deck holds db[code] for the remaining codes, as many as the input had present, and the error log names each missing code once |
| ToolTtsDecks.TTSDeck.Errors | fftcgtool/ttsdeck.py:32-33 | one "Code '…' not in CardDB, ignoring!" message per reported code |
| ToolTtsDecks.TTSDeck.FileName | fftcgtool/ttsdeck.py:43-45 | the collection's file name with ".json" appended |
| ToolTtsDecks.TTSDeck.Contents | fftcgtool/ttsdeck.py:51-54 | the contents in the language, in deck order |
| ToolTtsDecks.TTSDeck.Indices | fftcgtool/ttsdeck.py:94 | the slot indices, in deck order |
| ToolTtsDecks.TTSDeck.GetTtsObject | fftcgtool/ttsdeck.py:47-127 | fails exactly when a card lacks the language; otherwise the encoding of the contents with some bijective face index |
| ToolTtsDecks.TTSDeck.Save | fftcgtool/ttsdeck.py:132-139 | an empty deck writes nothing; otherwise it fails exactly when a card lacks the language, and on success "{decks dir}/{file_name}" gets the encoding of the deck's contents with a bijective face index |
| ToolTtsDecks.NewDeck | fftcgtool/ttsdeck.py:15-41 | a deck built from a fresh list of codes |
| ToolTtsDecks.BuiltSize | fftcgtool/ttsdeck.py:38-41 | a deck holds one card per present code of its list |
| ToolTtsDecks.EncodeShape | fftcgtool/ttsdeck.py:62-127 | one CustomDeck sheet per distinct face with the database's URL; DeckIDs in card order; rotY 180 always, rotZ 180 exactly when face down, shared by every card |
| ToolTtsDecks.EncodeLocatesFace | fftcgtool/ttsdeck.py:90-106 | a card id names the sheet holding its face's URL, and its remainder is the card's slot |
| ToolCards.Lookup | fftcgtool/card.py:112-116 | reading a key succeeds exactly when its language has content |
| ToolCards.LookupAfterSet | fftcgtool/card.py:112-122 | after setting a key, reading it returns the value, and other languages are unchanged |
| ToolCards.StringKeysNormalise | fftcgtool/card.py:112-122 | a string key is converted through `Language`, so case does not matter |
| ToolCards.ElementsTableAgrees | fftcgtool/card.py:19-30 | the zipped table equals the second generation's element table |
| ToolCards.Card.constructor | fftcgtool/card.py:32-36 | the card stores its code, elements, content and index |
| ToolCards.Card.Get | fftcgtool/card.py:112-116 | `card[key]` is a lookup of the key's language |
| ToolCards.Card.Set | fftcgtool/card.py:118-122 | `card[key] = value` sets that language's content and nothing else |
| ToolCards.Card.SetIndex | fftcgtool/card.py:133-139 | the setter's value is read back, and the content is unchanged |
| ToolCards.Card.Str | fftcgtool/card.py:108-110 | the English name with the elements and code; empty content gives None |
| ToolCards.ContentOf | fftcgtool/card.py:54-94 | content is built exactly when every API language has both fields, with one entry per API language |
| ToolCards.ContentOfEntries | fftcgtool/card.py:91-94 | each language gets the name and processed text of its own fields, and an empty face |
| ToolCards.FromSquareApiDataEmptyFails | fftcgtool/card.py:40-45 | the empty record takes the `Code("")` path, which fails |
| ToolCards.FromSquareApiDataFields | fftcgtool/card.py:91-103 | a record's card has its parsed code, one translated element per symbol, and every face "" |
| ToolCards.UnknownSymbolFails | fftcgtool/card.py:98-101 | an unknown element symbol fails the record |
| ToolCards.NewFromSquareApiData | fftcgtool/card.py:38-103 | the object holds the parsed parts, with index 0 |
| ToolOpus.SortedByOpusThenSerial | fftcgtool/opus.py:84-85 | a list sorted by the pair is ordered by opus text, then by the serial's number |
| ToolOpus.HeaderNumbered | fftcgtool/opus.py:23-35 | a numeric id names "Opus {id} ({short})" with the id as number; up to 14 uses the upper-cased roman numeral, 15 and 16 their set names, and above 16 fails |
| ToolOpus.HeaderNamed | fftcgtool/opus.py:37-51 | "chaos" is "B", "promo" is "PR" with rarity "pr", and anything else is "?" |
| ToolOpus.HeaderText | fftcgtool/opus.py:62-63 | every query carries "text", and it is always "" |
| ToolOpus.KeptCards | fftcgtool/opus.py:74-78 | only cards of the opus, or of a non-numeric opus, are kept, drawn from the service's cards |
| ToolOpus.KeptMembers | fftcgtool/opus.py:74-78 | every card that belongs to the opus is kept |
| ToolOpus.OpusOrder | fftcgtool/opus.py:83-85 | the two sorts give a permutation ordered by opus text, then serial, stable on ties |
| ToolOpus.CopiedContentFaces | fftcgtool/opus.py:87-93 | no language is added or dropped; a card the database lacks is unchanged; otherwise each language gets the database face and keeps its name and text |
| ToolOpus.CopyCardFaces | fftcgtool/opus.py:88-93 | the loop over API languages computes that copy, and stops at the first KeyError |
| ToolOpus.CreateCards | fftcgtool/opus.py:69-72 | one new card object per record, in order, each holding what its record parses to |
| ToolOpus.Opus.constructor | fftcgtool/opus.py:81 | the opus keeps its name, number, language and cards |
| ToolOpus.Opus.SortCards | fftcgtool/opus.py:84-85 | sorts in place when every serial is a number; otherwise `int("???")` raises and the list stays as it was |
| ToolOpus.Opus.CopyFaces | fftcgtool/opus.py:87-93 | every card gets its copied content, and nothing else changes |
| ToolOpus.Opus.ElementalDecks | fftcgtool/opus.py:101-156 | PR/B: one deck of all codes, not face down; otherwise one deck per non-empty element filter over the element-then-name order |
| ToolOpus.New | fftcgtool/opus.py:18-95 | a bad id, an unparsable record, a non-numeric serial, or a kept card without English content (the `str(card)` of line 95) fails; otherwise the opus holds the kept cards, sorted, with database faces |
| ToolOpus.Assemble | fftcgtool/opus.py:74-95 | succeeds exactly when every kept serial is a number and every kept card has English content; then the kept cards are sorted into a fresh opus, and the cards of the opus get database faces |
| ToolOpus.SortAndCopy | fftcgtool/opus.py:74-93 | succeeds exactly when every kept serial is a number; then the kept cards are sorted into a fresh opus, and the cards of the opus get database faces |
| ToolOpus.Opus.LogImported | fftcgtool/opus.py:95 | the message "imported card {card}" is built for every card, and fails exactly when some card has no English content; each message carries that card's `str` |
| ToolOpus.EnglishKept | fftcgtool/opus.py:87-95 | the face copy adds and drops no language, so the sorted opus has English content everywhere exactly when the kept cards had it before |
| ToolOpus.UnprintableIffNoEnglish | fftcgtool/opus.py:95 | a kept card cannot be printed exactly when the service's languages leave English out |
| ToolOpus.SortedOpus | fftcgtool/opus.py:74-85 | the opus holds the kept cards in opus-then-serial order, or fails on a non-numeric serial |
| ToolOpus.KeptSorted | fftcgtool/opus.py:74-85 | a kept card is in the sorted collection |
| ToolOpus.ElementalSpecs | fftcgtool/opus.py:115-149 | one deck spec per filter, in filter order, named "{name} {elem}", holding the codes that filter keeps from the element-then-name order |
| ToolOpus.BuildDecks | fftcgtool/opus.py:138-156 | a deck per spec, dropping those with no card in the database |
| ToolOpus.ElementPartition | fftcgtool/opus.py:115-130 | a one-element card falls in exactly one base or Light-Darkness deck; Multi takes several elements or Crystal |
| ToolOpus.DeckContents | fftcgtool/opus.py:132-149 | each deck holds exactly the cards its filter accepts, as often as the opus holds them |
| ToolOpus.DeckOrder | fftcgtool/opus.py:132-149 | the deck's codes follow the element-then-name order |
| ToolOpus.DeckMembers | fftcgtool/opus.py:138-149 | a deck holds only cards of the opus |
| ToolOpus.DeckSorted | fftcgtool/opus.py:132-149 | a deck is ordered by element name, then card name |
| FFDecks.SortedByTypeThenCost | fftcgtool/ffdecks.py:78-79 | a list sorted by the pair is ordered by type priority, then by cost |
| FFDecks.SanitizedId | fftcgtool/ffdecks.py:15-29 | a matched id is a non-empty digit run |
| FFDecks.SanitizedIds | fftcgtool/ffdecks.py:17-29 | one result per input, in input order |
| FFDecks.SanitizedBareNumber | fftcgtool/ffdecks.py:15-25 | a bare number is its own id; trailing text is ignored |
| FFDecks.SanitizedDeckUrl | fftcgtool/ffdecks.py:15-25 | after an optional "http(s)://", "ffdecks.com/deck/" and its digits give those digits |
| FFDecks.SanitizedApiDeckUrl | fftcgtool/ffdecks.py:15-25 | the same for "ffdecks.com/api/deck/" URLs |
| FFDecks.SanitizedNoId | fftcgtool/ffdecks.py:15-29 | text starting with neither a digit nor a URL letter gives None |
| FFDecks.ByType | fftcgtool/ffdecks.py:35-46 | Forward 1, Summon 2, Monster 3, Backup 5, anything else 4 |
| FFDecks.SortedCardsOrder | fftcgtool/ffdecks.py:77-79 | the two sorts give a permutation ordered by type priority, then cost, stable on ties |
| FFDecks.NormalArtReplacesTwo | fftcgtool/ffdecks.py:81-94 | "PR-051" becomes "11-083" and "PR-055" becomes "11-062"; every other code stays |
| FFDecks.ReplaceFullArts | fftcgtool/ffdecks.py:89-94 | the loop rewrites each entry's code by that table |
| FFDecks.NormalArtsIdempotent | fftcgtool/ffdecks.py:81-94 | replacing twice is replacing once, and counts are kept |
| FFDecks.ExpandCount | fftcgtool/ffdecks.py:96-103 | expansion succeeds exactly when every counted code parses, and yields the sum of the counts |
| FFDecks.ExpandAppend | fftcgtool/ffdecks.py:96-103 | expanding a concatenation expands the parts one after the other |
| FFDecks.ExpandOne | fftcgtool/ffdecks.py:96-103 | an entry expands to its parsed code, `count` times |
| FFDecks.StepsAccounted | fftcgtool/ffdecks.py:51-60 | every id is either logged and skipped, or builds one deck |
| FFDecks.PlanSteps | fftcgtool/ffdecks.py:51-106 | without a failure there is one step per id, in order; a None or unknown id logs and moves on |
| FFDecks.ImportCodes | fftcgtool/ffdecks.py:70-103 | the deck's codes after the sorts, the full-art replacement and the expansion |
| FFDecks.ImportOne | fftcgtool/ffdecks.py:52-106 | one id gives its step, and a deck built face down exactly when the step builds one |
| FFDecks.Import | fftcgtool/ffdecks.py:31-106 | the decks of the known ids in input order, face down, with the errors logged for the others |
| LegacyCards.BackCard | card.py:15-22 | the back card has serial "0-000", name "[cardback]", rarity "X", the back image, and id "0-000" |
| LegacyCards.BackCardStr | card.py:36-37 | the back card prints as "'[cardback]' (None, 0-000)" |
| LegacyCards.RecordCard | card.py:25-32 | a record gives a card exactly when every field is present and the rarity is non-empty; it keeps the rarity's first character, joins the abilities with blank lines, and points at its own id's image |
| LegacyCards.IdRarity | card.py:40-42 | the id is the serial, with the rarity appended exactly for C, R, H, L and S |
| LegacyCards.FaceUrlInjective | card.py:7-32 | different ids give different image URLs |
| LegacyCards.Dict | card.py:45-65 | Nickname is the name and Description the description, with Name "Card", Hands true and the fixed settings |
| LegacyOpus.SortedByElementNameId | opus.py:91-93 | a list sorted by the triple is ordered by element, then name, then card id |
| LegacyOpus.LoadOrder | opus.py:90-93 | the three sorts give a permutation ordered by element, then name, then card id, stable on ties |
| LegacyOpus.Opus.Load | opus.py:74-93 | the loaded cards are stored in that order |
| LegacyOpus.Opus.GetSheets | opus.py:95-106 | the sheets are the chunks of r * c - 1 cards, and they concatenate to the card list |
| LegacyOpus.PlacementAt | opus.py:64 | slot i is painted at ((i mod c) * w, (i div c) * h) |
| LegacyOpus.PageLayout | opus.py:114-126 | each sheet's cards fill slots 0 to n - 1 and the back fills slot r * c - 1, at distinct positions inside the sheet |
| LegacyOpus.Opus.GetImages | opus.py:108-138 | one page per sheet, laid out as above |
| LegacyOpus.CardIdAsWrittenTenColumns | opus.py:194 | with ten columns the written formula is 100 * (sheet + 1) + slot |
| LegacyOpus.CardIdAsWrittenCollides | opus.py:194 | with eleven columns, slots 10 and 11 of the first sheet both get id 110 |
| LegacyOpus.CardIdAsWrittenMisplaces | opus.py:193-194 | with any column count other than 10, slot c (the first card of the second row) gets the id of slot 10 and not its own |
| LegacyOpus.CardIdInjective | opus.py:193-194 | the intended id 100 * (sheet + 1) + slot names one sheet and one slot |
| LegacyOpus.SheetIdsMatch | opus.py:195-201 | DeckIDs and ContainedObjects receive the same ids in the same order |
| LegacyOpus.SheetMembers | opus.py:189-201 | every contained card is an accepted card of the sheet, under the corrected id of its own slot (see Findings) |
| LegacyOpus.SheetCoverage | opus.py:189-201 | every accepted card of the sheet is contained, under its slot's corrected id |
| LegacyOpus.SheetIdsIncrease | opus.py:189-194 | a sheet's corrected ids increase and stay within its slots; filtered-out cards do not shift them |
| LegacyOpus.SheetJson | opus.py:189-204 | the loop over one sheet computes its corrected ids, its card objects and whether it is used |
| LegacyOpus.Opus.GetJson | opus.py:140-206 | the deck of accepted cards under the corrected ids; a sheet enters CustomDeck only when used, with `faceurls[sheet]`; too few face URLs raise IndexError |

## Left out

- Images, threads and the network are left out. The pixel work, the worker
  threads and queues of `opus.py`, and the services' HTTP requests are not
  modelled. Their results are parameters:
  - an image is its source URL and its size;
  - the services' answers are `fetch` functions;
  - the roman-numeral library is `toRoman`.
- Persistence formats are left out: pickle, bz2, zip, JSON and sqlite. A
  database file is an abstract stored pair of maps.
- Directories on disk are left out. `fftcgtool` `TTSDeck.save` creates the
  decks directory when it is missing (fftcgtool/ttsdeck.py:135-136);
  `ToolTtsDecks.TTSDeck.Save` only returns the path and the object written.
- The sqlite half of `RWCardDB.save` is left out. It calls
  `Card.sqlite_schema`, which `fftcgtool/card.py` does not define, so
  `ToolCardDatabase.CardDB.Save` writes the archive and then returns that
  error.
- `input()` and logging are left out. Prompt answers are a given sequence;
  logged errors become returned message lists. Building a log message is
  modelled where it can raise: `ToolOpus.Opus.LogImported` for line 95 of
  fftcgtool/opus.py.
- The regular-expression markup steps of the rules text are parameters.
  These are the cost symbols, the elemental symbols, the formatting hints
  and EX BURST. The line-break step and the literal replacements are modelled.
- `CardRecords.BreakLines`: the break marker is matched in any ASCII case,
  and `\s` is ASCII whitespace.
- String operations are ASCII only. `isnumeric`, `isalpha`, `lower` and
  `upper` act on ASCII characters; Unicode case mapping and digit classes
  are not modelled.
- Python `set` iteration order is a free choice:
  - `Addressing.IndexFaces` promises only a bijection onto 1..k;
  - `ToolTtsDecks.DropInvalid` promises only that each missing code is
    reported once.
- The float scales of the Transform are kept as their decimal text.
- `FFDecks.Import` takes each card's cost and quantity as integers the
  service supplies. `int()` of a malformed number is not modelled.
- `fftcgtool/code.py`, `language.py`, `utils.py` and `cards.py` are not part
  of this model. The `fftcg/` versions stand in for them, and `API_LANGS` is
  a parameter.
- Calls in one generation that do not match another generation's code are
  modelled against their evident interface:
  - `CardDB.get()` in `fftcg/ttsdeck.py`;
  - `face_url` and `index` of the second-generation card, which become the
    deck's `faceUrlOf`/`indexOf`;
  - the loader call in `fftcg/book.py`, which uses the given resolution;
  - `card[lang].face` in `fftcg/carddb.py`'s `upload_prompt`, which becomes
    the parameter `faceOf` of `CardDatabase.CardDB.UploadPrompt` and
    `CardMaps.Faces`. The second-generation card defines neither
    `__getitem__` nor `face`, so the source raises TypeError once the
    database holds a card;
  - `Card()`, `load` and `_cardid` in `opus.py`, which `card.py` lacks; loaded
    cards carry their card id alongside.
- SheetJson (LegacyOpus.SheetJson) appends the corrected id 100 * (sheet + 1)
  + slot, not the formula `opus.py` writes at line 194. The two agree only
  for ten columns; see Findings.
- GetJson (LegacyOpus.Opus.GetJson) emits the corrected ids in DeckIDs and
  ContainedObjects for every column count. For any other count than ten the
  source's ids differ from these (`CardIdAsWrittenMisplaces`).
- SheetMembers (LegacyOpus.SheetMembers) and SheetCoverage
  (LegacyOpus.SheetCoverage) are stated of the corrected ids.
- SheetIdsIncrease (LegacyOpus.SheetIdsIncrease) is stated of the corrected
  ids. It does not hold of the written formula for eleven or more columns,
  where two slots share an id (`CardIdAsWrittenCollides`).
- CardDB.constructor (ToolCardDatabase.CardDB.constructor): `__new__` in
  `fftcgtool/carddb.py` creates no maps, and `__init__` with no URL loads
  none. On such an instance `in`, `[]` and `update` raise AttributeError.
  The model gives it two empty maps instead, and `ToolCardDatabase.CardDB.Init`
  with no URL keeps them.
- `Books.Book.constructor` requires every card to have an element. The
  source raises IndexError at `x.elements[0]` instead; every card that
  `CardRecords.FromData` builds has one.
- The symbol literals of `fftcg/utils.py` are taken as the intended
  characters. The file as given holds mis-decoded bytes; the tables use
  U+24B6, U+1F150, U+24EA, U+1F10C, U+2460 and U+278A.
- `ToolOpus.Opus.CopyFaces`, `ToolOpus.SortAndCopy` and `ToolOpus.Assemble`
  require that the opus' card objects are not the database's own objects. This holds because they
  are created fresh from the service's records.
- The unbounded English fallback of the image loaders, the CLI scripts and
  `fftcg/opus.py` are not part of this model.

## Findings

| source | as written | input that shows it | evidently intended | confidence | as-written member | corrected member |
|---|---|---|---|---|---|---|
| opus.py:194 | the id is 100 * (1-based sheet number) + 10 * (n div c) + (n mod c) for the card in slot n of a sheet with c columns | c = 11: slots 10 and 11 of the first sheet both get id 110 | 100 * (sheet number) + n, one id per slot; the two agree when c = 10, and for every other c slot c gets the id of slot 10 (CardIdAsWrittenMisplaces) | not executed | LegacyOpus.CardIdAsWrittenCollides | LegacyOpus.CardIdInjective |
| fftcg/grid.py:24-30 | `chunks` drops `capacity` items per round; a capacity of at most 0 (a 1x1 grid, or a grid with no cells, shown by Grids.NoCellsStall) leaves a non-empty list non-empty (the same loop is in opus.py:95-106) | grid (1, 1) or (0, 7) with one card: the loop never ends | a grid with at least two slots, so every round removes at least one item | not executed | Grids.ZeroCapacityStalls | Grids.Chunks |
