/** Controllers/checkoutController.cs: the standalone checkout page. It finds (or creates)
    the customer profile of the signed-in user by e-mail, or builds a guest profile from the
    form, refuses incomplete profiles, handles the card, and stores the order. The
    signed-in user is a parameter (`None` for a guest) and the clock reading is `now`. */
module CheckoutController {
  import opened Common
  import opened Items
  import opened Orders
  import opened CreditCards
  import opened Entities
  import opened Data

  /** The profile the signed-in user gets when no customer has their e-mail address:
      user name as full name, e-mail as e-mail, an empty address. */
  function NewProfile(id: int, user: User): (r: Customer)
    ensures r.id == id && r.address == Some("")
  {
    Customer(id, user.userName.GetOr(""), user.email.GetOr(""), None, Some(""))
  }

  /** The customer fields a guest posts with the order (`order.Customer`), if any. */
  datatype PostedCustomer = PostedCustomer(
    fullName: Option<string>,
    email: Option<string>,
    address: Option<string>)

  /** The profile of a guest: the posted fields, with "Guest", "" and "" for missing ones.
      Its identity value is assigned when it is saved together with the order. */
  function GuestProfile(id: int, posted: Option<PostedCustomer>): (r: Customer)
    ensures posted.None? ==> r.fullName == "Guest" && r.email == "" && r.address == Some("")
    ensures posted.Some? && posted.value.fullName.Some? ==> r.fullName == posted.value.fullName.value
  {
    if posted.None? then Customer(id, "Guest", "", None, Some(""))
    else Customer(id, posted.value.fullName.GetOr("Guest"), posted.value.email.GetOr(""), None,
                  Some(posted.value.address.GetOr("")))
  }

  /** The completeness check: full name, e-mail and address are all non-empty. */
  predicate IsComplete(c: Customer)
  {
    c.fullName != "" && c.email != "" && !IsNullOrEmpty(c.address)
  }

  /** A profile created for a signed-in user is never complete, and neither is a guest
      profile built without posted customer fields. */
  lemma NewProfilesIncomplete(id: int, user: User, gid: int)
    ensures !IsComplete(NewProfile(id, user))
    ensures !IsComplete(GuestProfile(gid, None))
  {
  }

  /** A guest profile is complete exactly when the guest posted a non-empty e-mail and a
      non-empty address (the name falls back to "Guest"). */
  lemma GuestComplete(gid: int, posted: PostedCustomer)
    ensures IsComplete(GuestProfile(gid, Some(posted))) <==>
      (posted.fullName.None? || posted.fullName.value != "")
      && posted.email.Some? && posted.email.value != ""
      && posted.address.Some? && posted.address.value != ""
  {
  }

  /** The signed-in user's profile lookup (shared by `Index` and `Place`): the first customer
      with the user's e-mail; when there is none, `NewProfile` is added and saved. */
  method ProfileOf(db: ShopDb, user: User) returns (customer: Customer)
    modifies db`customers
    ensures FindCustomerByEmail(old(db.customers), user.email).Some? ==>
      customer == old(db.customers)[FindCustomerByEmail(old(db.customers), user.email).value]
      && db.customers == old(db.customers)
    ensures FindCustomerByEmail(old(db.customers), user.email).None? ==>
      customer == NewProfile(NewCustomerId(old(db.customers), db.cards, db.carts, db.addresses), user)
      && db.customers == old(db.customers) + [customer]
  {
    var found := FindCustomerByEmail(db.customers, user.email);
    if found.Some? {
      customer := db.customers[found.value];
    } else {
      customer := NewProfile(NewCustomerId(db.customers, db.cards, db.carts, db.addresses), user);
      db.customers := db.customers + [customer];
    }
  }

  /** `Index`: the checkout page shows an empty cash-on-delivery order for the signed-in
      user's profile (created and saved when missing) or for a fresh "Guest" profile. */
  method Index(db: ShopDb, user: Option<User>, now: int) returns (resp: Response, order: Order, customer: Customer)
    modifies db`customers
    ensures resp == ShowForm
    ensures order.paymentMethod == CashOnDelivery && order.status == Pending
    ensures order.sellers == [] && order.statuses == []
    ensures order.customerId == customer.id
    ensures user.None? ==> customer == GuestProfile(0, None) && db.customers == old(db.customers)
    ensures user.Some? ==>
      (FindCustomerByEmail(old(db.customers), user.value.email).Some? ==>
         customer == old(db.customers)[FindCustomerByEmail(old(db.customers), user.value.email).value]
         && db.customers == old(db.customers))
      && (FindCustomerByEmail(old(db.customers), user.value.email).None? ==>
         customer == NewProfile(NewCustomerId(old(db.customers), db.cards, db.carts, db.addresses), user.value)
         && db.customers == old(db.customers) + [customer] && !IsComplete(customer))
  {
    if user.Some? {
      customer := ProfileOf(db, user.value);
    } else {
      customer := GuestProfile(0, None);
    }
    order := NewOrder(0, customer.id, now);
    resp := ShowForm;
  }

  /** The card table after making `card` the customer's card: the customer's previous card
      (if any) loses its link, and `card` is added under a fresh id, linked to the customer. */
  function LinkCard(cards: seq<CreditCard>, customerId: int, card: CreditCard, newId: int): (r: seq<CreditCard>)
    ensures |r| == |cards| + 1
    ensures r[|cards|] == card.(id := newId, customerId := Some(customerId))
    ensures forall j :: 0 <= j < |cards| ==>
      r[j] == (if cards[j].customerId == Some(customerId) then cards[j].(customerId := None) else cards[j])
  {
    seq(|cards|, j requires 0 <= j < |cards| =>
          if cards[j].customerId == Some(customerId) then cards[j].(customerId := None) else cards[j])
    + [card.(id := newId, customerId := Some(customerId))]
  }

  /** After linking, the customer's card is the new one and it carries the posted fields. */
  lemma LinkCardIsCustomers(cards: seq<CreditCard>, customerId: int, card: CreditCard, newId: int)
    ensures CardOf(LinkCard(cards, customerId, card, newId), customerId) == Some(|cards|)
    ensures CopyCardFields(LinkCard(cards, customerId, card, newId)[|cards|], card)
      == LinkCard(cards, customerId, card, newId)[|cards|]
    ensures Valid(LinkCard(cards, customerId, card, newId)[|cards|]) <==> Valid(card)
  {
    var r := LinkCard(cards, customerId, card, newId);
    CardOfIs(r, customerId, |cards|);
    OwnerIrrelevant(card, Some(customerId), card.sellerId, newId);
  }

  /** The order `Place` stores: the posted order, stamped with the customer, the time and
      status Pending, under a fresh identity value. */
  function StampedOrder(order: Order, id: int, customerId: int, now: int): (r: Order)
    ensures r.customerId == customerId && r.status == Pending && r.orderDate == now
    ensures r.paymentMethod == order.paymentMethod && CurrentStatus(r) == CurrentStatus(order.(status := Pending))
  {
    order.(id := id, customerId := customerId, orderDate := now, status := Pending)
  }

  /** `Place`.
      - The profile is the signed-in user's (found or created and saved first) or a guest
        profile built from the posted customer fields.
      - An incomplete profile is sent to profile editing; no order is saved.
      - Cash on delivery touches no card.
      - A credit card with `useSavedCard` and an existing saved card reuses it (this step
        dereferences the posted `order.Customer`, so a form without customer fields crashes).
      - Otherwise the posted card must pass validation (else the form is shown again) and
        becomes the customer's card.
      - The order, stamped for the customer, is saved together with a guest profile and the
        new card in one step. */
  method Place(db: ShopDb, user: Option<User>, order: Order, postedCustomer: Option<PostedCustomer>,
               card: CreditCard, useSavedCard: Option<bool>, now: int)
    returns (resp: Response, customer: Customer, orderId: int)
    modifies db`customers, db`cards, db`orders
    ensures resp == Done ==> IsComplete(customer)
    ensures !IsComplete(customer) ==>
      resp == Declined(IncompleteProfile) && db.orders == old(db.orders) && db.cards == old(db.cards)
    ensures user.None? ==>
      customer == GuestProfile(NewCustomerId(old(db.customers), old(db.cards), db.carts, db.addresses),
                               postedCustomer)
    ensures user.Some? && FindCustomerByEmail(old(db.customers), user.value.email).None? ==>
      customer == NewProfile(NewCustomerId(old(db.customers), old(db.cards), db.carts, db.addresses), user.value)
      && resp == Declined(IncompleteProfile) && db.customers == old(db.customers) + [customer]
      && db.orders == old(db.orders) && db.cards == old(db.cards)
    ensures resp == Declined(IncompleteProfile) <==> !IsComplete(customer)
    ensures IsComplete(customer) && order.paymentMethod == CashOnDelivery ==> resp == Done
    ensures resp == Crash <==>
      IsComplete(customer) && order.paymentMethod == CreditCardPayment
      && useSavedCard == Some(true) && CardOf(old(db.cards), customer.id).Some? && postedCustomer.None?
    ensures resp == ShowForm <==>
      IsComplete(customer) && order.paymentMethod == CreditCardPayment
      && !(useSavedCard == Some(true) && CardOf(old(db.cards), customer.id).Some?) && !Valid(card)
    ensures resp == Done <==>
      IsComplete(customer)
      && (order.paymentMethod == CashOnDelivery
          || (useSavedCard == Some(true) && CardOf(old(db.cards), customer.id).Some? && postedCustomer.Some?)
          || (!(useSavedCard == Some(true) && CardOf(old(db.cards), customer.id).Some?) && Valid(card)))
    ensures resp == Done ==>
      orderId == NewOrderId(old(db.orders), old(db.items))
      && db.orders == old(db.orders) + [StampedOrder(order, orderId, customer.id, now)]
    ensures resp == Done && order.paymentMethod == CashOnDelivery ==> db.cards == old(db.cards)
    ensures (resp == Done && order.paymentMethod == CreditCardPayment
             && useSavedCard == Some(true) && CardOf(old(db.cards), customer.id).Some?) ==>
      db.cards == old(db.cards)
    ensures (resp == Done && order.paymentMethod == CreditCardPayment
             && !(useSavedCard == Some(true) && CardOf(old(db.cards), customer.id).Some?)) ==>
      Valid(card) && db.cards == LinkCard(old(db.cards), customer.id, card, NewCardId(old(db.cards)))
    ensures resp == ShowForm ==>
      order.paymentMethod == CreditCardPayment && !Valid(card)
      && db.orders == old(db.orders) && db.cards == old(db.cards)
    ensures resp == Crash ==>
      postedCustomer.None? && db.orders == old(db.orders) && db.cards == old(db.cards)
    ensures resp in {Done, ShowForm, Crash, Declined(IncompleteProfile)}
    ensures user.None? && resp == Done ==> db.customers == old(db.customers) + [customer]
    ensures user.None? && resp != Done ==> db.customers == old(db.customers)
    ensures user.Some? && FindCustomerByEmail(old(db.customers), user.value.email).Some? ==>
      customer == old(db.customers)[FindCustomerByEmail(old(db.customers), user.value.email).value]
      && db.customers == old(db.customers)
  {
    orderId := 0;
    var guest := user.None?;
    if user.Some? {
      customer := ProfileOf(db, user.value);
    } else {
      customer := GuestProfile(NewCustomerId(db.customers, db.cards, db.carts, db.addresses), postedCustomer);
    }
    if !IsComplete(customer) {
      return Declined(IncompleteProfile), customer, orderId;
    }
    var cards := db.cards;
    if order.paymentMethod == CreditCardPayment {
      if useSavedCard == Some(true) && CardOf(db.cards, customer.id).Some? {
        if postedCustomer.None? {
          return Crash, customer, orderId;
        }
      } else {
        if !Valid(card) {
          return ShowForm, customer, orderId;
        }
        cards := LinkCard(db.cards, customer.id, card, NewCardId(db.cards));
      }
    }
    if guest {
      db.customers := db.customers + [customer];
    }
    db.cards := cards;
    orderId := NewOrderId(db.orders, db.items);
    db.orders := db.orders + [StampedOrder(order, orderId, customer.id, now)];
    resp := Done;
  }
}
