/**
 * The third-generation card database (fftcgtool/carddb.py). One shared
 * instance, of class `CardDB` (read-only: `save`, `update` and
 * `upload_prompt` do nothing) or `RWCardDB` (writable), whichever is
 * created first; `writable` records which. Its cards and face URLs come
 * from a zip archive read from a path or, failing that, downloaded.
 */
module ToolCardDatabase {
  import opened Wrappers
  import opened CardMaps
  import Codes
  import ToolCards
  import Languages

  /** An archive holding the pickled cards and the face-to-URL mapping. */
  datatype Store = Archive(cards: map<string, ToolCards.Card>, faceToUrl: map<string, string>)

  /** The outcome of a prompt run: the sorted faces, the faces asked for, and whether input lasted. */
  datatype PromptRun = PromptRun(faces: seq<string>, asked: seq<string>, complete: bool)

  function CardKey(c: ToolCards.Card): string { Codes.Short(c.code) }

  /** The face a card shows in a language; only asked for languages the card has. */
  function FaceOf(content: ToolCards.Content, l: Languages.Language): string {
    if l in content then content[l].face else ""
  }

  /** `card[lang]` succeeds for every card and every API language. */
  predicate HasAllLanguages(snapshot: map<string, ToolCards.Content>, langs: seq<Languages.Language>) {
    forall k, i :: k in snapshot && 0 <= i < |langs| ==> langs[i] in snapshot[k]
  }

  class CardDB {
    /** The instance is an `RWCardDB`. */
    const writable: bool
    var cards: map<string, ToolCards.Card>
    var faceToUrl: map<string, string>
    /** `RWCardDB.__db_path`, unset until a path is given. */
    var dbPath: Option<string>
    /** The archives `save` has written, by path. */
    var written: map<string, Store>

    constructor (writable: bool)
      ensures this.writable == writable
      ensures cards == map[] && faceToUrl == map[] && dbPath == None && written == map[]
    {
      this.writable := writable;
      cards, faceToUrl := map[], map[];
      dbPath, written := None, map[];
    }

    /** `_load(db)`: both maps from the archive, or both empty when there is no file. */
    method Load(file: Option<Store>)
      modifies this
      ensures file.None? ==> cards == map[] && faceToUrl == map[]
      ensures file.Some? ==> cards == file.value.cards && faceToUrl == file.value.faceToUrl
      ensures dbPath == old(dbPath) && written == old(written)
    {
      match file
      case None => cards, faceToUrl := map[], map[];
      case Some(a) => cards, faceToUrl := a.cards, a.faceToUrl;
    }

    /**
     * `CardDB.__init__(db_url)`: with a URL, the file of that name when it
     * exists, otherwise the download; a failed download is a ValueError.
     * `files` and `download` stand for the file system and the network.
     */
    method Init(dbUrl: Option<string>, files: string -> Option<Store>, download: string -> Option<Store>)
        returns (r: Result<bool>)
      modifies this
      ensures dbUrl.None? ==> r.Ok? && unchanged(this)
      ensures dbUrl.Some? && files(dbUrl.value).Some? ==>
                r.Ok? && cards == files(dbUrl.value).value.cards && faceToUrl == files(dbUrl.value).value.faceToUrl
      ensures dbUrl.Some? && files(dbUrl.value).None? && download(dbUrl.value).None? ==>
                r.Err? && unchanged(this)
      ensures dbUrl.Some? && files(dbUrl.value).None? && download(dbUrl.value).Some? ==>
                r.Ok? && cards == download(dbUrl.value).value.cards && faceToUrl == download(dbUrl.value).value.faceToUrl
      ensures dbPath == old(dbPath) && written == old(written)
    {
      r := Ok(true);
      if dbUrl.Some? {
        var url := dbUrl.value;
        if files(url).Some? {
          Load(files(url));
        } else if download(url).None? {
          r := Err("ValueError: Invalid URL given to CardDB!");
        } else {
          Load(download(url));
        }
      }
    }

    /** `RWCardDB.__init__(db_path)`: with a path, remember it and load it (a missing file gives empty maps). */
    method InitRW(path: Option<string>, files: string -> Option<Store>)
      modifies this
      ensures path.None? ==> unchanged(this)
      ensures path.Some? ==> dbPath == path && written == old(written)
                             && (files(path.value).None? ==> cards == map[] && faceToUrl == map[])
                             && (files(path.value).Some? ==>
                                   cards == files(path.value).value.cards && faceToUrl == files(path.value).value.faceToUrl)
    {
      if path.Some? {
        dbPath := path;
        Load(files(path.value));
      }
    }

    /** `code in db` */
    predicate Contains(code: Codes.Code)
      reads this
    {
      Codes.Short(code) in cards
    }

    /** `db[code]`, raising KeyError for an unknown code. */
    function Get(code: Codes.Code): (r: Result<ToolCards.Card>)
      reads this
      ensures r.Ok? <==> Contains(code)
      ensures KeyedBy(cards, CardKey) && r.Ok? ==> Codes.Same(r.value.code, code)
    {
      if Codes.Short(code) in cards then Ok(cards[Codes.Short(code)]) else Err("KeyError")
    }

    /** `get_face_url(face)` */
    function GetFaceUrl(face: string): (r: string)
      reads this
      ensures r == FaceUrl(faceToUrl, face)
    {
      if face in faceToUrl then faceToUrl[face] else face
    }

    /** Each card's content, as `upload_prompt` sees it. */
    function Snapshot(): map<string, ToolCards.Content>
      reads this, cards.Values
    {
      map k | k in cards :: cards[k].content
    }

    /**
     * `save()`: nothing for a read-only instance. `RWCardDB.save` writes
     * the archive to its path, then fails on `Card.sqlite_schema`, which
     * the card class does not define; without a path it fails before
     * writing.
     */
    method Save() returns (r: Result<bool>)
      modifies this
      ensures !writable ==> r.Ok? && unchanged(this)
      ensures writable ==> r.Err?
      ensures writable && dbPath.Some? ==> written == old(written)[dbPath.value := Archive(cards, faceToUrl)]
      ensures writable && dbPath.None? ==> written == old(written)
      ensures cards == old(cards) && faceToUrl == old(faceToUrl) && dbPath == old(dbPath)
    {
      if !writable {
        return Ok(true);
      }
      if dbPath.None? {
        return Err("AttributeError: 'RWCardDB' object has no attribute '_RWCardDB__db_path'");
      }
      written := written[dbPath.value := Archive(cards, faceToUrl)];
      r := Err("AttributeError: type object 'Card' has no attribute 'sqlite_schema'");
    }

    /** `update(cards)`: nothing for a read-only instance; otherwise last write wins per code. */
    method Update(cs: seq<ToolCards.Card>)
      modifies this
      ensures !writable ==> unchanged(this)
      ensures writable ==> cards == Merge(old(cards), cs, CardKey)
      ensures faceToUrl == old(faceToUrl) && dbPath == old(dbPath) && written == old(written)
      ensures old(KeyedBy(cards, CardKey)) ==> KeyedBy(cards, CardKey)
    {
      if writable {
        ghost var keyed := KeyedBy(cards, CardKey);
        var i := 0;
        while i < |cs|
          invariant 0 <= i <= |cs|
          invariant cards == Merge(old(cards), cs[..i], CardKey)
          invariant faceToUrl == old(faceToUrl) && dbPath == old(dbPath) && written == old(written)
        {
          assert cs[..i + 1][..i] == cs[..i];
          cards := cards[CardKey(cs[i]) := cs[i]];
          i := i + 1;
        }
        assert cs[..i] == cs;
        if keyed {
          MergeKeyedBy(old(cards), cs, CardKey);
        }
      }
    }

    /**
     * `upload_prompt()`: nothing for a read-only instance. Otherwise every
     * card must have content in every API language (KeyError), the faces
     * are prompted for as in the second generation, and nothing is saved.
     */
    method UploadPrompt(langs: seq<Languages.Language>, answers: seq<string>) returns (r: Result<PromptRun>)
      modifies this
      ensures !writable ==> r.Ok? && r.value == PromptRun([], [], true) && unchanged(this)
      ensures writable ==> (r.Ok? <==> HasAllLanguages(old(Snapshot()), langs))
      ensures r.Ok? && writable ==>
                && StrictlyIncreasing(r.value.faces)
                && (forall f :: f in r.value.faces <==> f in Faces(old(Snapshot()), langs, FaceOf))
                && Prompt(old(faceToUrl), r.value.faces, answers) == Prompted(faceToUrl, r.value.asked, r.value.complete)
      ensures r.Err? ==> unchanged(this)
      ensures cards == old(cards) && dbPath == old(dbPath) && written == old(written)
    {
      if !writable {
        return Ok(PromptRun([], [], true));
      }
      var snapshot := Snapshot();
      if !HasAllLanguages(snapshot, langs) {
        return Err("KeyError");
      }
      var faces := SortedFaces(Faces(snapshot, langs, FaceOf));
      var p := RunPrompt(faceToUrl, faces, answers);
      faceToUrl := p.urls;
      r := Ok(PromptRun(faces, p.asked, p.complete));
    }
  }

  /** The class attribute `CardDB._instance`. */
  class Registry {
    var instance: Option<CardDB>

    constructor ()
      ensures instance == None
    {
      instance := None;
    }

    /**
     * `CardDB(db_url)`: creates a read-only instance when there is none.
     * Python then runs the `__init__` of the instance's own class, so an
     * existing RWCardDB treats `db_url` as its path.
     */
    method OpenCardDB(dbUrl: Option<string>, files: string -> Option<Store>, download: string -> Option<Store>)
        returns (db: CardDB, r: Result<bool>)
      modifies this, if instance.Some? then {instance.value} else {}
      ensures instance == Some(db)
      ensures old(instance).Some? ==> db == old(instance).value
      ensures old(instance).None? ==> fresh(db) && !db.writable
      ensures db.writable ==> r.Ok? && db.dbPath == (if dbUrl.Some? then dbUrl else old(db.dbPath))
      ensures !db.writable ==> db.dbPath == (if old(instance).Some? then old(instance.value.dbPath) else None)
      ensures old(instance).Some? ==> db.written == old(instance.value.written)
      // The re-run `__init__`: what the maps hold afterwards, against what they held before.
      ensures var was := if old(instance).Some? then old(Archive(instance.value.cards, instance.value.faceToUrl)) else Archive(map[], map[]);
              !db.writable ==>
                && (dbUrl.None? ==> r.Ok? && Archive(db.cards, db.faceToUrl) == was)
                && (dbUrl.Some? && files(dbUrl.value).Some? ==> r.Ok? && Archive(db.cards, db.faceToUrl) == files(dbUrl.value).value)
                && (dbUrl.Some? && files(dbUrl.value).None? && download(dbUrl.value).None? ==>
                      r.Err? && Archive(db.cards, db.faceToUrl) == was)
                && (dbUrl.Some? && files(dbUrl.value).None? && download(dbUrl.value).Some? ==>
                      r.Ok? && Archive(db.cards, db.faceToUrl) == download(dbUrl.value).value)
      ensures var was := if old(instance).Some? then old(Archive(instance.value.cards, instance.value.faceToUrl)) else Archive(map[], map[]);
              db.writable ==>
                && (dbUrl.None? ==> Archive(db.cards, db.faceToUrl) == was)
                && (dbUrl.Some? && files(dbUrl.value).None? ==> db.cards == map[] && db.faceToUrl == map[])
                && (dbUrl.Some? && files(dbUrl.value).Some? ==> Archive(db.cards, db.faceToUrl) == files(dbUrl.value).value)
    {
      if instance.Some? {
        db := instance.value;
      } else {
        db := new CardDB(false);
        instance := Some(db);
      }
      if db.writable {
        db.InitRW(dbUrl, files);
        r := Ok(true);
      } else {
        r := db.Init(dbUrl, files, download);
      }
    }

    /**
     * `RWCardDB(db_path)`: creates a writable instance when there is none;
     * when the instance is a read-only CardDB, Python skips `__init__` and
     * hands back that read-only instance unchanged.
     */
    method OpenRWCardDB(dbPath: Option<string>, files: string -> Option<Store>) returns (db: CardDB)
      modifies this, if instance.Some? then {instance.value} else {}
      ensures instance == Some(db)
      ensures old(instance).Some? ==> db == old(instance).value
      ensures old(instance).None? ==> fresh(db) && db.writable
      ensures !db.writable ==> unchanged(db)
      ensures db.writable && dbPath.Some? ==> db.dbPath == dbPath
      ensures db.writable && old(instance).Some? ==> db.written == old(instance.value.written)
      ensures db.writable && old(instance).None? ==> db.written == map[]
      // The re-run `__init__` of a writable instance: the path's file, or empty maps when it is missing.
      ensures var was := if old(instance).Some? then old(Archive(instance.value.cards, instance.value.faceToUrl)) else Archive(map[], map[]);
              db.writable ==>
                && (dbPath.None? ==> Archive(db.cards, db.faceToUrl) == was && db.dbPath == (if old(instance).Some? then old(instance.value.dbPath) else None))
                && (dbPath.Some? && files(dbPath.value).None? ==> db.cards == map[] && db.faceToUrl == map[])
                && (dbPath.Some? && files(dbPath.value).Some? ==> Archive(db.cards, db.faceToUrl) == files(dbPath.value).value)
    {
      if instance.Some? {
        db := instance.value;
      } else {
        db := new CardDB(true);
        instance := Some(db);
      }
      if db.writable {
        db.InitRW(dbPath, files);
      }
    }
  }

  /**
   * Whichever class is opened first fixes the instance for good: after
   * `RWCardDB()` and then `CardDB()` the instance is writable, after
   * `CardDB()` and then `RWCardDB()` it is read-only.
   */
  method FirstOpenedWins(files: string -> Option<Store>, download: string -> Option<Store>)
      returns (rwFirst: bool, roFirstReadOnly: bool)
    ensures rwFirst && roFirstReadOnly
  {
    var reg1 := new Registry();
    var a := reg1.OpenRWCardDB(None, files);
    var b, _ := reg1.OpenCardDB(None, files, download);
    rwFirst := a == b && b.writable;
    var reg2 := new Registry();
    var c, _ := reg2.OpenCardDB(None, files, download);
    var d := reg2.OpenRWCardDB(None, files);
    roFirstReadOnly := c == d && !d.writable;
  }

  /**
   * A writable database whose every face got an answer asks for nothing
   * when prompted again: the second run's asked faces are the faces the
   * first run answered with an empty string.
   */
  lemma RepromptAsksOnlyEmptyAnswered(urls: map<string, string>, faces: seq<string>, answers: seq<string>, again: seq<string>)
    requires StrictlyIncreasing(faces) && Prompt(urls, faces, answers).complete
    requires forall j :: 0 <= j < |answers| ==> answers[j] != ""
    ensures Prompt(Prompt(urls, faces, answers).urls, faces, again).asked == []
  {
    StrictlyIncreasingDistinct(faces);
    RepromptAsksEmptyAnswered(urls, faces, answers, again);
    NoEmptyAnswered(Prompt(urls, faces, answers).asked, answers);
  }

  lemma {:induction false} NoEmptyAnswered(asked: seq<string>, answers: seq<string>)
    requires |asked| <= |answers| && forall j :: 0 <= j < |answers| ==> answers[j] != ""
    ensures EmptyAnswered(asked, answers) == []
    decreases |asked|
  {
    if asked != [] {
      NoEmptyAnswered(asked[1..], answers[1..]);
    }
  }
}
