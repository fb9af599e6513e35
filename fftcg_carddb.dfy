/**
 * The second-generation card database (fftcg/carddb.py): one shared
 * instance holding every card by its code and the mapping from face image
 * names to uploaded URLs, saved to and restored from one archive file.
 */
module CardDatabase {
  import opened Wrappers
  import opened CardMaps
  import Codes
  import CardRecords

  /** The database file: absent, or holding the two pickled maps. */
  datatype Store = Missing | Archive(cards: map<string, CardRecords.Card>, faceToUrl: map<string, string>)

  function CardKey(c: CardRecords.Card): string { Codes.Short(c.code) }

  /** A file the database wrote: every card stored under its own code. */
  predicate StoreValid(s: Store) {
    s.Archive? ==> KeyedBy(s.cards, CardKey)
  }

  class CardDB {
    /** Cards by the short form of their code, the only part `Code.__eq__` and `__hash__` use. */
    var cards: map<string, CardRecords.Card>
    var faceToUrl: map<string, string>
    /** The contents of the database file. */
    var disk: Store

    predicate Valid()
      reads this
    {
      KeyedBy(cards, CardKey)
    }

    /** The instance `__new__` sets up: empty maps, and the file as it is. */
    constructor (file: Store)
      ensures cards == map[] && faceToUrl == map[] && disk == file
      ensures Valid()
    {
      cards := map[];
      faceToUrl := map[];
      disk := file;
    }

    /** `code in db`: some stored card has a code equal to `code`. */
    predicate Contains(code: Codes.Code)
      reads this
    {
      Codes.Short(code) in cards
    }

    /** `db[code]`, raising KeyError for an unknown code. */
    function Get(code: Codes.Code): (r: Result<CardRecords.Card>)
      reads this
      ensures r.Ok? <==> Contains(code)
      ensures Valid() && r.Ok? ==> Codes.Same(r.value.code, code)
    {
      if Codes.Short(code) in cards then Ok(cards[Codes.Short(code)]) else Err("KeyError")
    }

    /** `__pickle`: both maps, written to the file. */
    method Save()
      modifies this
      ensures disk == Archive(cards, faceToUrl)
      ensures cards == old(cards) && faceToUrl == old(faceToUrl)
      ensures old(Valid()) ==> StoreValid(disk)
    {
      disk := Archive(cards, faceToUrl);
    }

    /** `update(cards)`: every card stored under its code, the last of equal codes winning, then saved. */
    method Update(cs: seq<CardRecords.Card>)
      modifies this
      ensures cards == Merge(old(cards), cs, CardKey)
      ensures faceToUrl == old(faceToUrl)
      ensures disk == Archive(cards, faceToUrl)
      ensures old(Valid()) ==> Valid() && StoreValid(disk)
    {
      ghost var valid0 := Valid();
      var i := 0;
      while i < |cs|
        invariant 0 <= i <= |cs|
        invariant cards == Merge(old(cards), cs[..i], CardKey)
        invariant faceToUrl == old(faceToUrl)
      {
        assert cs[..i + 1][..i] == cs[..i];
        cards := cards[CardKey(cs[i]) := cs[i]];
        i := i + 1;
      }
      assert cs[..i] == cs;
      if valid0 {
        MergeKeyedBy(old(cards), cs, CardKey);
      }
      Save();
    }

    /** `get_face_url(face)` */
    function GetFaceUrl(face: string): (r: string)
      reads this
      ensures r == FaceUrl(faceToUrl, face)
    {
      if face in faceToUrl then faceToUrl[face] else face
    }

    /**
     * `upload_prompt()`: the distinct non-empty faces of all cards in all
     * API languages, in sorted order; for each one without a URL, one
     * answer is read and kept when non-empty. `answers` is what `input()`
     * returns, in order; when it runs out, `input()` raises EOFError and
     * nothing is saved. `asked` lists the faces whose prompt was shown.
     */
    method UploadPrompt(langs: seq<string>, faceOf: (CardRecords.Card, string) -> string, answers: seq<string>)
        returns (faces: seq<string>, asked: seq<string>, complete: bool)
      modifies this
      ensures StrictlyIncreasing(faces)
      ensures forall f :: f in faces <==> f in Faces(old(cards), langs, faceOf)
      ensures Prompt(old(faceToUrl), faces, answers) == Prompted(faceToUrl, asked, complete)
      ensures cards == old(cards)
      ensures complete ==> disk == Archive(cards, faceToUrl)
      ensures !complete ==> disk == old(disk)
    {
      faces := SortedFaces(Faces(cards, langs, faceOf));
      var p := RunPrompt(faceToUrl, faces, answers);
      faceToUrl, asked, complete := p.urls, p.asked, p.complete;
      if complete {
        Save();
      }
    }

    /** `load()`: both maps cleared, then filled from the file when it exists. */
    method Load()
      modifies this
      ensures disk == old(disk)
      ensures disk.Missing? ==> cards == map[] && faceToUrl == map[]
      ensures disk.Archive? ==> cards == disk.cards && faceToUrl == disk.faceToUrl
      ensures StoreValid(disk) ==> Valid()
    {
      cards, faceToUrl := map[], map[];
      if disk.Archive? {
        cards, faceToUrl := disk.cards, disk.faceToUrl;
      }
    }
  }

  /** The single instance `__new__` hands out. */
  class Registry {
    var instance: Option<CardDB>

    constructor ()
      ensures instance == None
    {
      instance := None;
    }

    /** `CardDB()`: the first call creates the instance, every later call returns it unchanged. */
    method Instance(file: Store) returns (db: CardDB)
      modifies this
      ensures instance == Some(db)
      ensures old(instance).Some? ==> db == old(instance).value
      ensures old(instance).None? ==> fresh(db) && db.cards == map[] && db.faceToUrl == map[] && db.disk == file
    {
      if instance.Some? {
        db := instance.value;
      } else {
        db := new CardDB(file);
        instance := Some(db);
      }
    }
  }

  /**
   * `__pickle` followed by `load()` on the same database: both maps come
   * back as they were, the file holds them, and every lookup answers as
   * before, finding a card with an equal code.
   */
  method SaveLoadRoundTrip(db: CardDB, code: Codes.Code, face: string)
    requires db.Valid()
    modifies db
    ensures db.cards == old(db.cards) && db.faceToUrl == old(db.faceToUrl)
    ensures db.disk == Archive(db.cards, db.faceToUrl) && db.Valid()
    ensures db.Get(code) == old(db.Get(code)) && db.GetFaceUrl(face) == old(db.GetFaceUrl(face))
    ensures db.Get(code).Ok? ==> Codes.Same(db.Get(code).value.code, code)
  {
    db.Save();
    db.Load();
  }

  /**
   * After `update`, looking up the code of a card finds the last card in
   * the update with an equal code, and codes the update does not mention
   * are found as before.
   */
  lemma UpdateLookups(old_cards: map<string, CardRecords.Card>, cs: seq<CardRecords.Card>, i: nat, code: Codes.Code)
    requires i < |cs| && forall j :: i < j < |cs| ==> !Codes.Same(cs[j].code, cs[i].code)
    requires forall j :: 0 <= j < |cs| ==> !Codes.Same(cs[j].code, code)
    ensures var m := Merge(old_cards, cs, CardKey);
            CardKey(cs[i]) in m && m[CardKey(cs[i])] == cs[i]
    ensures var m := Merge(old_cards, cs, CardKey);
            (Codes.Short(code) in m <==> Codes.Short(code) in old_cards)
            && (Codes.Short(code) in old_cards ==> m[Codes.Short(code)] == old_cards[Codes.Short(code)])
  {
    MergeLastWins(old_cards, cs, CardKey, i);
    MergeUntouched(old_cards, cs, CardKey, Codes.Short(code));
  }
}
