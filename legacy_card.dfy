/**
 * A card of the first generation (card.py): built either as the card back
 * or from one record of the card service, with an id made of its serial
 * number and rarity letter, an official image URL built from that id, and
 * the dictionary it contributes to a Tabletop Simulator deck.
 */
module LegacyCards {
  import opened Wrappers
  import opened Strings
  import TtsObjects

  /** Line 7: the official card image, with the card id substituted. */
  function FaceUrl(id: string): string {
    "https://fftcg.square-enix-games.com/theme/tcg/images/cards/full/" + id + "_eg.jpg"
  }

  /** Line 10: the card back image. */
  const BACK_URL := "http://cloud-3.steamusercontent.com/ugc/948455238665576576/85063172B8C340602E8D6C783A457122F53F7843/"

  /** The rarities that appear in a card id. */
  const ID_RARITIES: seq<string> := ["C", "R", "H", "L", "S"]

  /**
   * What `Card(data)` is given: the number 0 for the back, or a record of
   * the card service, split into its text fields and its list fields.
   */
  datatype Data = Zero | Record(text: map<string, string>, lists: map<string, seq<string>>)

  datatype Card = Card(serial: string, name: string, rarity: string, element: string,
                       description: string, imageUrl: string)

  /** Lines 40-42: the serial, followed by the rarity when it is one of C, R, H, L, S. */
  function Id(c: Card): string {
    c.serial + (if c.rarity in ID_RARITIES then c.rarity else "")
  }

  function Text(data: map<string, string>, key: string): Result<string> {
    if key in data then Ok(data[key]) else Err("KeyError: '" + key + "'")
  }

  /** Lines 13-32: the back card for 0; otherwise the fields of the record, read in order. */
  function New(data: Data): Result<Card> {
    match data
    case Zero => Ok(Card("0-000", "[cardback]", "X", "None", "None", BACK_URL))
    case Record(text, lists) =>
      match Text(text, "serial_number")
      case Err(e) => Err(e)
      case Ok(serial) =>
        match Text(text, "name")
        case Err(e) => Err(e)
        case Ok(name) =>
          match Text(text, "rarity")
          case Err(e) => Err(e)
          case Ok(rarityText) =>
            if rarityText == [] then Err("IndexError: string index out of range")
            else
              match Text(text, "element")
              case Err(e) => Err(e)
              case Ok(element) =>
                if "abilities" !in lists then Err("KeyError: 'abilities'")
                else
                  var c := Card(serial, name, [rarityText[0]], element, Join(lists["abilities"], "\n\n"), "");
                  Ok(c.(imageUrl := FaceUrl(Id(c))))
  }

  /** The back card is "0-000" without a rarity letter, and shows the back image. */
  lemma BackCard()
    ensures New(Zero).Ok?
    ensures var c := New(Zero).value;
            && c.serial == "0-000" && c.name == "[cardback]" && c.rarity == "X"
            && c.imageUrl == BACK_URL && Id(c) == "0-000"
  {
    var c := New(Zero).value;
    assert "X" !in ID_RARITIES;
  }

  /** The back card prints as "'[cardback]' (None, 0-000)". */
  lemma BackCardStr()
    ensures New(Zero).Ok? && Str(New(Zero).value) == "'[cardback]' (None, 0-000)"
  {
    BackCard();
    var c := New(Zero).value;
    assert Str(c) == "'" + "[cardback]" + "' (" + "None" + ", " + "0-000" + ")";
  }

  /**
   * A record gives a card exactly when it has every field and a non-empty
   * rarity; the card keeps the first rarity character, joins the abilities
   * with blank lines, and points at the official image of its own id.
   */
  lemma RecordCard(text: map<string, string>, lists: map<string, seq<string>>)
    ensures New(Record(text, lists)).Ok? <==>
              "serial_number" in text && "name" in text && "rarity" in text && text["rarity"] != []
              && "element" in text && "abilities" in lists
    ensures New(Record(text, lists)).Ok? ==>
              var c := New(Record(text, lists)).value;
              && c.serial == text["serial_number"] && c.name == text["name"] && c.element == text["element"]
              && c.rarity == [text["rarity"][0]]
              && c.description == Join(lists["abilities"], "\n\n")
              && c.imageUrl == FaceUrl(Id(c))
  {
  }

  /** The id is the serial, with the rarity letter appended exactly for C, R, H, L and S. */
  lemma IdRarity(c: Card)
    ensures c.rarity in ID_RARITIES ==> Id(c) == c.serial + c.rarity && |Id(c)| == |c.serial| + 1
    ensures c.rarity !in ID_RARITIES ==> Id(c) == c.serial
    ensures Id(c)[..|c.serial|] == c.serial
  {
  }

  /** Different ids give different image URLs. */
  lemma FaceUrlInjective(a: string, b: string)
    ensures FaceUrl(a) == FaceUrl(b) ==> a == b
  {
    var p := "https://fftcg.square-enix-games.com/theme/tcg/images/cards/full/";
    if FaceUrl(a) == FaceUrl(b) {
      assert |a| == |b|;
      assert a == FaceUrl(a)[|p|..|p| + |a|];
      assert b == FaceUrl(b)[|p|..|p| + |b|];
    }
  }

  /** Line 36-37: "'name' (element, id)". */
  function Str(c: Card): string {
    "'" + c.name + "' (" + c.element + ", " + Id(c) + ")"
  }

  /** The dictionary `get_dict` returns: a card object without a CardID. */
  datatype CardDict = CardDict(nickname: string, description: string, name: string, hands: bool,
                               sidewaysCard: bool, transform: TtsObjects.Transform, flags: TtsObjects.Flags)

  /** Lines 45-65: the card's name and description, and the fixed card settings. */
  function Dict(c: Card): (d: CardDict)
    ensures d.nickname == c.name && d.description == c.description
    ensures d.name == "Card" && d.hands && !d.sidewaysCard && d.flags == TtsObjects.COMMON_FLAGS
  {
    CardDict(c.name, c.description, "Card", true, false,
             TtsObjects.Transform(TtsObjects.SCALE_XZ, TtsObjects.SCALE_Y, TtsObjects.SCALE_XZ, None, None),
             TtsObjects.COMMON_FLAGS)
  }
}
