/**
 * The card store of the Amazon affiliate hub page: an ordered list of deal
 * cards, newest first, with the staging fields of the generator and of the
 * card editor, and the handlers that change them.
 *
 * The list transformations are pure (prepend, map by id, filter by id); the
 * handlers are methods of the `App` class that set its fields as the page's
 * state setters do.
 */
module CardStore {
  import opened Wrappers
  import opened Text
  import opened LinkResolver

  /** The image a card shows until one is set. */
  const PlaceholderImage: string := "https://via.placeholder.com/400x300?text=Product+Image"

  /** The store id used when none was saved. */
  const DefaultStoreId: string := "lavish057-21"

  const EnterUrlAlert: string := "Please enter a URL."
  const GenerateFirstAlert: string := "Generate affiliate link first."

  /** A deal card; `id` is the creation time in milliseconds. */
  datatype Card = Card(id: int, asin: string, title: string, link: string, image: string)

  /** The ids of the cards, in list order. */
  function Ids(cards: seq<Card>): (ids: seq<int>)
    ensures |ids| == |cards|
    ensures forall i :: 0 <= i < |cards| ==> ids[i] == cards[i].id
  {
    if cards == [] then [] else [cards[0].id] + Ids(cards[1..])
  }

  /** No two cards share an id. */
  predicate UniqueIds(cards: seq<Card>) {
    forall i, j :: 0 <= i < j < |cards| ==> cards[i].id != cards[j].id
  }

  /** How many cards carry `id`. */
  function CountId(cards: seq<Card>, id: int): nat {
    if cards == [] then 0 else (if cards[0].id == id then 1 else 0) + CountId(cards[1..], id)
  }

  /**
   * The store id read at start-up: the saved one, unless it is missing or
   * empty (both falsy), in which case the default tag.
   */
  function InitialStoreId(saved: Option<string>): (storeId: string)
    ensures storeId != ""
    ensures saved.Some? && saved.value != "" ==> storeId == saved.value
    ensures saved.None? || saved.value == "" ==> storeId == DefaultStoreId
  {
    if saved.Some? && saved.value != "" then saved.value else DefaultStoreId
  }

  /**
   * The card list read at start-up from the result of parsing the saved JSON:
   * `None` stands for a parse failure, and a missing slot is parsed as `[]`.
   */
  function InitialCards(parsed: Option<seq<Card>>): (cards: seq<Card>)
    ensures parsed.None? ==> cards == []
    ensures parsed.Some? ==> cards == parsed.value
  {
    match parsed
    case None => []
    case Some(cs) => cs
  }

  /**
   * The card `addCard` creates: the extracted code or `""`, the title
   * `Product <code>`, the generated link and the placeholder image.
   */
  function NewCard(id: int, asin: Option<string>, link: string): (c: Card)
    ensures c.id == id && c.link == link && c.image == PlaceholderImage
    ensures c.asin == (if asin.Some? then asin.value else "")
    ensures c.title == "Product " + c.asin
  {
    var code := if asin.Some? then asin.value else "";
    Card(id, code, "Product " + code, link, PlaceholderImage)
  }

  /**
   * What the image field of the editor starts with: blank for the
   * placeholder, the card's own image otherwise.
   */
  function StagedImage(image: string): (staged: string)
    ensures staged == "" <==> image == PlaceholderImage || image == ""
    ensures staged != "" ==> staged == image
  {
    if image == PlaceholderImage then "" else image
  }

  /**
   * One card after `saveEdit`: a non-empty staged title replaces the title,
   * an empty one keeps it; the image becomes the staged image, or the
   * placeholder when that is empty. Id, code and link are untouched.
   */
  function ApplyEdit(c: Card, title: string, image: string): (r: Card)
    ensures r.id == c.id && r.asin == c.asin && r.link == c.link
    ensures r.title == (if title != "" then title else c.title)
    ensures r.image == (if image != "" then image else PlaceholderImage)
  {
    c.(title := if title != "" then title else c.title,
       image := if image != "" then image else PlaceholderImage)
  }

  /** The picture a card displays: its own image, or the placeholder when it has none. */
  function ShownImage(image: string): (shown: string)
    ensures shown != ""
    ensures image != "" ==> shown == image
    ensures image == "" ==> shown == PlaceholderImage
  {
    if image != "" then image else PlaceholderImage
  }

  /**
   * Opening the editor and saving it unchanged never changes the picture a
   * card displays, whether its image is its own, the placeholder or empty.
   */
  lemma EditKeepsShownImage(c: Card)
    ensures ShownImage(ApplyEdit(c, c.title, StagedImage(c.image)).image) == ShownImage(c.image)
  {
    if c.image == "" {
      assert StagedImage(c.image) == "";
    }
  }

  /** `cards.map(c => c.id === id ? edited : c)`. */
  function EditById(cards: seq<Card>, id: int, title: string, image: string): (r: seq<Card>)
    ensures |r| == |cards|
    ensures forall i :: 0 <= i < |cards| && cards[i].id != id ==> r[i] == cards[i]
    ensures forall i :: 0 <= i < |cards| && cards[i].id == id ==> r[i] == ApplyEdit(cards[i], title, image)
  {
    if cards == [] then []
    else
      var c := cards[0];
      [if c.id == id then ApplyEdit(c, title, image) else c] + EditById(cards[1..], id, title, image)
  }

  /** `cards.filter(c => c.id !== id)`. */
  function WithoutId(cards: seq<Card>, id: int): (r: seq<Card>)
    ensures |r| == |cards| - CountId(cards, id)
    ensures forall i :: 0 <= i < |r| ==> r[i].id != id
  {
    if cards == [] then []
    else if cards[0].id == id then WithoutId(cards[1..], id)
    else [cards[0]] + WithoutId(cards[1..], id)
  }

  /** The filter keeps exactly the cards whose id differs. */
  lemma {:induction false} WithoutMembers(cards: seq<Card>, id: int)
    ensures forall c :: c in WithoutId(cards, id) <==> c in cards && c.id != id
  {
    if cards != [] {
      WithoutMembers(cards[1..], id);
      assert forall c :: c in cards <==> c == cards[0] || c in cards[1..];
    }
  }

  /** A card is counted once per occurrence of its id. */
  lemma {:induction false} CountIdPositive(cards: seq<Card>, id: int)
    ensures CountId(cards, id) > 0 <==> id in Ids(cards)
  {
    if cards != [] {
      CountIdPositive(cards[1..], id);
      assert Ids(cards) == [cards[0].id] + Ids(cards[1..]);
    }
  }

  /** With unique ids, an id occurs at most once. */
  lemma {:induction false} CountIdUnique(cards: seq<Card>, id: int)
    requires UniqueIds(cards)
    ensures CountId(cards, id) <= 1
  {
    if cards != [] {
      CountIdUnique(cards[1..], id);
      if cards[0].id == id {
        forall k | 0 <= k < |cards| - 1 ensures Ids(cards[1..])[k] != id {
          assert cards[1..][k] == cards[k + 1];
        }
        CountIdPositive(cards[1..], id);
      }
    }
  }

  /**
   * Deleting a present id from a list with unique ids removes exactly one
   * card; deleting an absent id changes nothing.
   */
  lemma DeleteRemovesOne(cards: seq<Card>, id: int)
    requires UniqueIds(cards)
    ensures id in Ids(cards) ==> |WithoutId(cards, id)| == |cards| - 1
    ensures id !in Ids(cards) ==> WithoutId(cards, id) == cards
  {
    CountIdPositive(cards, id);
    CountIdUnique(cards, id);
    if id !in Ids(cards) {
      WithoutAbsent(cards, id);
    }
  }

  /** Filtering an id that no card carries is the identity. */
  lemma {:induction false} WithoutAbsent(cards: seq<Card>, id: int)
    requires id !in Ids(cards)
    ensures WithoutId(cards, id) == cards
  {
    if cards != [] {
      assert Ids(cards) == [cards[0].id] + Ids(cards[1..]);
      WithoutAbsent(cards[1..], id);
    }
  }

  /**
   * The filter keeps the relative order of the cards it keeps: it
   * distributes over concatenation.
   */
  lemma {:induction false} WithoutKeepsOrder(a: seq<Card>, b: seq<Card>, id: int)
    ensures WithoutId(a + b, id) == WithoutId(a, id) + WithoutId(b, id)
  {
    if a == [] {
      assert a + b == b;
    } else {
      var c := a[0];
      assert a + b == [c] + (a[1..] + b);
      assert (a + b)[0] == c && (a + b)[1..] == a[1..] + b;
      WithoutKeepsOrder(a[1..], b, id);
      var rest := WithoutId(a[1..] + b, id);
      if c.id == id {
        assert WithoutId(a + b, id) == rest;
        assert WithoutId(a, id) == WithoutId(a[1..], id);
      } else {
        assert WithoutId(a + b, id) == [c] + rest;
        assert WithoutId(a, id) == [c] + WithoutId(a[1..], id);
      }
    }
  }

  /** The filtered list keeps ids unique. */
  lemma {:induction false} WithoutKeepsUnique(cards: seq<Card>, id: int)
    requires UniqueIds(cards)
    ensures UniqueIds(WithoutId(cards, id))
  {
    if cards != [] {
      WithoutKeepsUnique(cards[1..], id);
      var rest := WithoutId(cards[1..], id);
      WithoutMembers(cards[1..], id);
      if cards[0].id != id {
        forall c | c in rest ensures c.id != cards[0].id {
          var k :| 0 <= k < |cards[1..]| && cards[1..][k] == c;
          assert cards[k + 1] == c;
        }
        assert WithoutId(cards, id) == [cards[0]] + rest;
      }
    }
  }

  /** Editing leaves the ids, codes and links of the list as they were. */
  lemma EditKeepsIdentity(cards: seq<Card>, id: int, title: string, image: string)
    ensures Ids(EditById(cards, id, title, image)) == Ids(cards)
    ensures forall i :: 0 <= i < |cards| ==>
      EditById(cards, id, title, image)[i].asin == cards[i].asin &&
      EditById(cards, id, title, image)[i].link == cards[i].link
    ensures UniqueIds(cards) ==> UniqueIds(EditById(cards, id, title, image))
  {
    var r := EditById(cards, id, title, image);
    assert forall i :: 0 <= i < |cards| ==> r[i].id == cards[i].id;
  }

  /** Saving an edit for an id that no card carries leaves the list as it was. */
  lemma EditMissIsNoOp(cards: seq<Card>, id: int, title: string, image: string)
    requires id !in Ids(cards)
    ensures EditById(cards, id, title, image) == cards
  {
    var r := EditById(cards, id, title, image);
    forall i | 0 <= i < |cards| ensures r[i] == cards[i] {
      assert Ids(cards)[i] == cards[i].id;
    }
  }

  /**
   * Opening the editor on a card and saving without changes gives the card
   * back exactly when it has an image: the title always survives, an empty
   * image comes back as the placeholder.
   */
  lemma EditRoundTrip(c: Card)
    ensures ApplyEdit(c, c.title, StagedImage(c.image)) == c <==> c.image != ""
  {
    if c.image == "" {
      assert ApplyEdit(c, c.title, StagedImage(c.image)).image == PlaceholderImage;
    }
  }

  /**
   * Adding a card with an id no card carries keeps the ids unique (the page
   * relies on `Date.now()` for this).
   */
  lemma PrependKeepsUnique(c: Card, cards: seq<Card>)
    requires UniqueIds(cards) && c.id !in Ids(cards)
    ensures UniqueIds([c] + cards)
  {
    forall j | 0 <= j < |cards| ensures cards[j].id != c.id {
      assert Ids(cards)[j] == cards[j].id;
    }
  }

  /**
   * The page's state: the store id, the generator's input and result, the
   * card list and the card editor. The browser's URL parser and
   * `encodeURIComponent` are fixed when the page is created.
   */
  class App {
    const parse: UrlParser
    const enc: Encoder
    var storeId: string
    var inputUrl: string
    var affiliateLink: string
    var cards: seq<Card>
    var editingId: Option<int>
    var editTitle: string
    var editImage: string

    /**
     * The initial state: the saved store id and card list as read at
     * start-up, empty staging fields and no card being edited.
     */
    constructor (parse: UrlParser, enc: Encoder, savedStoreId: Option<string>, parsedCards: Option<seq<Card>>)
      ensures this.parse == parse && this.enc == enc
      ensures storeId == InitialStoreId(savedStoreId) && cards == InitialCards(parsedCards)
      ensures inputUrl == "" && affiliateLink == ""
      ensures editingId == None && editTitle == "" && editImage == ""
    {
      this.parse := parse;
      this.enc := enc;
      storeId := InitialStoreId(savedStoreId);
      inputUrl := "";
      affiliateLink := "";
      cards := InitialCards(parsedCards);
      editingId := None;
      editTitle := "";
      editImage := "";
    }

    /**
     * The Generate button: a blank input raises the alert and changes
     * nothing; otherwise the generated link is the trimmed input with the
     * store tag appended.
     */
    method Generate() returns (alert: Option<string>)
      modifies this`affiliateLink
      ensures alert.Some? <==> IsBlank(inputUrl)
      ensures alert.Some? ==> alert.value == EnterUrlAlert && affiliateLink == old(affiliateLink)
      ensures alert.None? ==> affiliateLink == TaggedUrl(Trim(inputUrl), enc(storeId))
      ensures alert.None? ==> affiliateLink[..|Trim(inputUrl)|] == Trim(inputUrl)
    {
      var url := Trim(inputUrl);
      if url == "" {
        return Some(EnterUrlAlert);
      }
      var affiliateUrl := url;
      if '?' in url {
        affiliateUrl := affiliateUrl + "&tag=" + enc(storeId);
      } else {
        affiliateUrl := affiliateUrl + "?tag=" + enc(storeId);
      }
      affiliateLink := affiliateUrl;
      alert := None;
    }

    /**
     * The Add as Card button: without a generated link it raises the alert
     * and changes nothing; otherwise it puts a new card, stamped `now`, in
     * front of the list and clears the input and the generated link.
     */
    method AddCard(now: int) returns (alert: Option<string>)
      modifies this`cards, this`inputUrl, this`affiliateLink
      ensures alert.Some? <==> old(affiliateLink) == ""
      ensures alert.Some? ==> alert.value == GenerateFirstAlert
      ensures alert.Some? ==> cards == old(cards) && inputUrl == old(inputUrl) && affiliateLink == old(affiliateLink)
      ensures alert.None? ==> cards == [NewCard(now, ExtractAsin(old(inputUrl), parse), old(affiliateLink))] + old(cards)
      ensures alert.None? ==> inputUrl == "" && affiliateLink == ""
      ensures UniqueIds(old(cards)) && now !in Ids(old(cards)) ==> UniqueIds(cards)
    {
      if affiliateLink == "" {
        return Some(GenerateFirstAlert);
      }
      var asin := ExtractAsin(inputUrl, parse);
      var newCard := NewCard(now, asin, affiliateLink);
      if UniqueIds(cards) && now !in Ids(cards) {
        PrependKeepsUnique(newCard, cards);
      }
      cards := [newCard] + cards;
      inputUrl := "";
      affiliateLink := "";
      alert := None;
    }

    /** The Edit button: stage the card's id, title and image in the editor. */
    method StartEdit(card: Card)
      modifies this`editingId, this`editTitle, this`editImage
      ensures editingId == Some(card.id) && editTitle == card.title
      ensures editImage == StagedImage(card.image)
    {
      editingId := Some(card.id);
      editTitle := card.title;
      editImage := if card.image == PlaceholderImage then "" else card.image;
    }

    /**
     * The Save button: apply the staged title and image to every card with
     * this id, then close and clear the editor.
     */
    method SaveEdit(id: int)
      modifies this`cards, this`editingId, this`editTitle, this`editImage
      ensures cards == EditById(old(cards), id, old(editTitle), old(editImage))
      ensures editingId == None && editTitle == "" && editImage == ""
    {
      cards := EditById(cards, id, editTitle, editImage);
      editingId := None;
      editTitle := "";
      editImage := "";
    }

    /**
     * The Delete button: when the user confirms, drop every card with this
     * id; otherwise nothing changes.
     */
    method DeleteCard(id: int, confirmed: bool)
      modifies this`cards
      ensures !confirmed ==> cards == old(cards)
      ensures confirmed ==> cards == WithoutId(old(cards), id)
    {
      if !confirmed {
        return;
      }
      cards := WithoutId(cards, id);
    }
  }
}
