/** Controllers/CreditCardController.cs: the owner-scoped card table. The signed-in user
    resolves to an owner (a customer or a seller id); every lookup matches a card only by its
    id together with the caller's owner link, so a caller never reads, edits or removes a
    card of another owner. */
module CreditCardController {
  import opened Common
  import opened CreditCards
  import opened Entities
  import opened Data

  /** The two kinds of card owner (the strings "Customer" and "Seller" of the source). */
  datatype OwnerKind = CustomerOwner | SellerOwner

  /** `GetOwnerIdAsync`: the owner id and kind of the signed-in user. */
  function GetOwnerId(user: Option<User>): (r: (Option<int>, Option<OwnerKind>))
    ensures user.Some? && user.value.userType == CustomerUser ==>
      r == (user.value.customerId, Some(CustomerOwner))
    ensures user.Some? && user.value.userType == SellerUser ==>
      r == (user.value.sellerId, Some(SellerOwner))
    ensures (user.None? || user.value.userType == AdminUser) ==> r == (None, None)
    ensures r.0.Some? ==> r.1.Some?
  {
    if user.None? then (None, None)
    else if user.value.userType == CustomerUser then (user.value.customerId, Some(CustomerOwner))
    else if user.value.userType == SellerUser then (user.value.sellerId, Some(SellerOwner))
    else (None, None)
  }

  /** The lookup predicate: the card has the id, and the owner link for the caller's kind
      is the caller's owner id. */
  predicate Owns(card: CreditCard, kind: Option<OwnerKind>, ownerId: int, id: int)
  {
    (kind == Some(CustomerOwner) && card.customerId == Some(ownerId) && card.id == id)
    || (kind == Some(SellerOwner) && card.sellerId == Some(ownerId) && card.id == id)
  }

  /** The first card the caller owns under that id. */
  function FindOwned(cards: seq<CreditCard>, kind: Option<OwnerKind>, ownerId: int, id: int): (r: Option<nat>)
    ensures r.Some? ==> r.value < |cards| && Owns(cards[r.value], kind, ownerId, id)
    ensures r.Some? ==> forall j :: 0 <= j < r.value ==> !Owns(cards[j], kind, ownerId, id)
    ensures r.None? ==> forall j :: 0 <= j < |cards| ==> !Owns(cards[j], kind, ownerId, id)
  {
    IndexWhere(cards, (c: CreditCard) => Owns(c, kind, ownerId, id))
  }

  /** A lookup without an owner kind finds nothing; a found card has the requested id and
      carries the caller's id in the owner link of the caller's kind. */
  lemma FindOwnedScoped(cards: seq<CreditCard>, kind: Option<OwnerKind>, ownerId: int, id: int)
    ensures kind.None? ==> FindOwned(cards, kind, ownerId, id).None?
    ensures FindOwned(cards, kind, ownerId, id).Some? ==>
      var c := cards[FindOwned(cards, kind, ownerId, id).value];
      c.id == id
      && (kind == Some(CustomerOwner) ==> c.customerId == Some(ownerId))
      && (kind == Some(SellerOwner) ==> c.sellerId == Some(ownerId))
  {
  }

  /** The row `Create` inserts: the posted card under a fresh identity value, with the owner
      link of the caller's kind set to the caller. */
  function Inserted(card: CreditCard, kind: OwnerKind, ownerId: int, newId: int): (r: CreditCard)
    ensures Owns(r, Some(kind), ownerId, newId)
    ensures CopyCardFields(r, card) == r
    ensures Valid(r) <==> Valid(card)
  {
    OwnerIrrelevant(card, Some(ownerId), card.sellerId, newId);
    OwnerIrrelevant(card, card.customerId, Some(ownerId), newId);
    match kind
    case CustomerOwner => card.(id := newId, customerId := Some(ownerId))
    case SellerOwner => card.(id := newId, sellerId := Some(ownerId))
  }

  /** A card just created is the one the owner's lookups find under its new id. */
  lemma CreatedIsFound(cards: seq<CreditCard>, card: CreditCard, kind: OwnerKind, ownerId: int)
    ensures FindOwned(cards + [Inserted(card, kind, ownerId, NewCardId(cards))], Some(kind), ownerId,
                      NewCardId(cards)) == Some(|cards|)
  {
    var r := cards + [Inserted(card, kind, ownerId, NewCardId(cards))];
    assert forall j :: 0 <= j < |cards| ==> r[j].id != NewCardId(cards);
    assert Owns(r[|cards|], Some(kind), ownerId, NewCardId(cards));
  }

  /** `Create` (POST). */
  method Create(db: ShopDb, user: Option<User>, card: CreditCard) returns (resp: Response)
    modifies db`cards
    ensures GetOwnerId(user).0.None? ==> resp == Unauthorized && db.cards == old(db.cards)
    ensures GetOwnerId(user).0.Some? && !Valid(card) ==> resp == ShowForm && db.cards == old(db.cards)
    ensures GetOwnerId(user).0.Some? && Valid(card) ==>
      resp == Done
      && db.cards == old(db.cards) + [Inserted(card, GetOwnerId(user).1.value, GetOwnerId(user).0.value,
                                               NewCardId(old(db.cards)))]
  {
    var (ownerId, kind) := GetOwnerId(user);
    if ownerId.None? {
      return Unauthorized;
    }
    if !Valid(card) {
      return ShowForm;
    }
    db.cards := db.cards + [Inserted(card, kind.value, ownerId.value, NewCardId(db.cards))];
    resp := Done;
  }

  /** `Edit` (POST): the route id must be the posted card's id, the posted card must be
      valid, and the caller must own a card with that id; the five form fields are then
      copied onto it. */
  method Edit(db: ShopDb, user: Option<User>, id: int, card: CreditCard) returns (resp: Response)
    modifies db`cards
    ensures resp != Done ==> db.cards == old(db.cards)
    ensures GetOwnerId(user).0.None? ==> resp == Unauthorized
    ensures GetOwnerId(user).0.Some? && id != card.id ==> resp == NotFound
    ensures GetOwnerId(user).0.Some? && id == card.id && !Valid(card) ==> resp == ShowForm
    ensures (GetOwnerId(user).0.Some? && id == card.id && Valid(card)
             && FindOwned(old(db.cards), GetOwnerId(user).1, GetOwnerId(user).0.value, id).None?) ==>
      resp == NotFound
    ensures resp == Done <==>
      GetOwnerId(user).0.Some? && id == card.id && Valid(card)
      && FindOwned(old(db.cards), GetOwnerId(user).1, GetOwnerId(user).0.value, id).Some?
    ensures resp == Done ==>
      GetOwnerId(user).0.Some? && Valid(card)
      && FindOwned(old(db.cards), GetOwnerId(user).1, GetOwnerId(user).0.value, id).Some?
      && var k := FindOwned(old(db.cards), GetOwnerId(user).1, GetOwnerId(user).0.value, id).value;
         db.cards == old(db.cards)[k := CopyCardFields(old(db.cards)[k], card)]
         && Owns(db.cards[k], GetOwnerId(user).1, GetOwnerId(user).0.value, id)
         && Valid(db.cards[k])
  {
    var (ownerId, kind) := GetOwnerId(user);
    if ownerId.None? {
      return Unauthorized;
    }
    if id != card.id {
      return NotFound;
    }
    if !Valid(card) {
      return ShowForm;
    }
    var found := FindOwned(db.cards, kind, ownerId.value, id);
    if found.None? {
      return NotFound;
    }
    var k := found.value;
    db.cards := db.cards[k := CopyCardFields(db.cards[k], card)];
    resp := Done;
  }

  /** `DeleteConfirmed`: removes the caller's card with that id, if there is one. */
  method DeleteConfirmed(db: ShopDb, user: Option<User>, id: int) returns (resp: Response)
    modifies db`cards
    ensures GetOwnerId(user).0.None? ==> resp == Unauthorized && db.cards == old(db.cards)
    ensures GetOwnerId(user).0.Some? ==> resp == Done
    ensures (GetOwnerId(user).0.Some?
             && FindOwned(old(db.cards), GetOwnerId(user).1, GetOwnerId(user).0.value, id).None?) ==>
      db.cards == old(db.cards)
    ensures (GetOwnerId(user).0.Some?
             && FindOwned(old(db.cards), GetOwnerId(user).1, GetOwnerId(user).0.value, id).Some?) ==>
      db.cards == RemoveAt(old(db.cards), FindOwned(old(db.cards), GetOwnerId(user).1, GetOwnerId(user).0.value, id).value)
    ensures forall c :: c in old(db.cards) && c !in db.cards ==>
      GetOwnerId(user).0.Some? && Owns(c, GetOwnerId(user).1, GetOwnerId(user).0.value, id)
  {
    var (ownerId, kind) := GetOwnerId(user);
    if ownerId.None? {
      return Unauthorized;
    }
    var found := FindOwned(db.cards, kind, ownerId.value, id);
    if found.Some? {
      var k := found.value;
      var before := db.cards;
      db.cards := RemoveAt(db.cards, k);
      forall j | 0 <= j < |before| && j != k
        ensures before[j] in db.cards
      {
        if j < k {
          assert db.cards[j] == before[j];
        } else {
          assert db.cards[j - 1] == before[j];
        }
      }
    }
    resp := Done;
  }
}
