/** Controllers/AddressController.cs: a customer's postal address record. `Save` creates the
    record or overwrites its three fields in place; `Delete` removes it. The signed-in user is
    a parameter (`None` when nobody is signed in). */
module AddressController {
  import opened Common
  import opened Entities
  import opened Data

  /** The address table after saving the triple for the customer: a new record under a
      fresh identity value when the customer has none, otherwise the customer's record with
      its street, city and country overwritten. */
  function SavedAddresses(addresses: seq<Address>, customerId: int, street: string, city: string,
                          country: string): (r: seq<Address>)
    ensures AddressOf(addresses, customerId).None? ==>
      r == addresses + [Address(NewAddressId(addresses), street, city, country, customerId)]
    ensures AddressOf(addresses, customerId).Some? ==>
      var k := AddressOf(addresses, customerId).value;
      |r| == |addresses| && r[k].id == addresses[k].id && r[k].customerId == customerId
      && (r[k].street, r[k].city, r[k].country) == (street, city, country)
      && forall j :: 0 <= j < |addresses| && j != k ==> r[j] == addresses[j]
  {
    match AddressOf(addresses, customerId)
    case None => addresses + [Address(NewAddressId(addresses), street, city, country, customerId)]
    case Some(k) => addresses[k := addresses[k].(street := street, city := city, country := country)]
  }

  /** After saving, the customer's address is found and holds exactly the saved triple. */
  lemma SavedIsFound(addresses: seq<Address>, customerId: int, street: string, city: string, country: string)
    ensures AddressOf(SavedAddresses(addresses, customerId, street, city, country), customerId).Some?
    ensures var r := SavedAddresses(addresses, customerId, street, city, country);
      var a := r[AddressOf(r, customerId).value];
      a.street == street && a.city == city && a.country == country && a.customerId == customerId
  {
    var r := SavedAddresses(addresses, customerId, street, city, country);
    match AddressOf(addresses, customerId)
    case None =>
      AddressOfIs(r, customerId, |addresses|);
    case Some(k) =>
      AddressOfIs(r, customerId, k);
  }

  /** Saving the same triple twice leaves the table as saving it once. */
  lemma SaveIdempotent(addresses: seq<Address>, customerId: int, street: string, city: string, country: string)
    ensures var once := SavedAddresses(addresses, customerId, street, city, country);
      SavedAddresses(once, customerId, street, city, country) == once
  {
    var once := SavedAddresses(addresses, customerId, street, city, country);
    match AddressOf(addresses, customerId)
    case None =>
      AddressOfIs(once, customerId, |addresses|);
      assert once[|addresses| := once[|addresses|]] == once;
    case Some(k) =>
      AddressOfIs(once, customerId, k);
      assert once[k := once[k]] == once;
  }

  /** Every customer has at most one address record (the one-to-one link of the schema). */
  predicate OneAddressPerCustomer(addresses: seq<Address>)
  {
    forall i, j :: 0 <= i < j < |addresses| ==> addresses[i].customerId != addresses[j].customerId
  }

  /** Saving keeps one address per customer. */
  lemma SaveKeepsOneAddress(addresses: seq<Address>, customerId: int, street: string, city: string, country: string)
    requires OneAddressPerCustomer(addresses)
    ensures OneAddressPerCustomer(SavedAddresses(addresses, customerId, street, city, country))
  {
    var r := SavedAddresses(addresses, customerId, street, city, country);
    forall i, j | 0 <= i < j < |r|
      ensures r[i].customerId != r[j].customerId
    {
      if AddressOf(addresses, customerId).Some? {
        assert r[i].customerId == addresses[i].customerId;
        assert r[j].customerId == addresses[j].customerId;
      } else if j == |addresses| {
        assert r[i] == addresses[i];
      } else {
        assert r[i] == addresses[i] && r[j] == addresses[j];
      }
    }
  }

  /** The table after `Delete` for a customer: the customer's record removed, if any. */
  function DeletedAddress(addresses: seq<Address>, customerId: int): (r: seq<Address>)
    ensures AddressOf(addresses, customerId).None? ==> r == addresses
    ensures AddressOf(addresses, customerId).Some? ==> |r| == |addresses| - 1
  {
    match AddressOf(addresses, customerId)
    case None => addresses
    case Some(k) => RemoveAt(addresses, k)
  }

  /** With one address per customer, `Delete` leaves the customer without an address, keeps
      every other customer's record, and keeps one address per customer. */
  lemma DeleteLeavesNone(addresses: seq<Address>, customerId: int)
    requires OneAddressPerCustomer(addresses)
    ensures AddressOf(DeletedAddress(addresses, customerId), customerId).None?
    ensures forall a :: a in addresses && a.customerId != customerId ==> a in DeletedAddress(addresses, customerId)
    ensures OneAddressPerCustomer(DeletedAddress(addresses, customerId))
  {
    var r := DeletedAddress(addresses, customerId);
    match AddressOf(addresses, customerId)
    case None =>
    case Some(k) =>
      forall j | 0 <= j < |r|
        ensures r[j].customerId != customerId
      {
        if j < k {
          assert r[j] == addresses[j];
        } else {
          assert r[j] == addresses[j + 1];
        }
      }
      forall a | a in addresses && a.customerId != customerId
        ensures a in r
      {
        var j :| 0 <= j < |addresses| && addresses[j] == a;
        if j < k {
          assert r[j] == a;
        } else {
          assert j != k;
          assert r[j - 1] == a;
        }
      }
  }

  /** `Save` (POST). */
  method Save(db: ShopDb, user: Option<User>, street: string, city: string, country: string)
    returns (resp: Response)
    modifies db`addresses
    ensures resp != Done ==> db.addresses == old(db.addresses)
    ensures user.None? ==> resp == LoginRequired
    ensures user.Some? && (user.value.userType != CustomerUser || user.value.customerId.None?) ==>
      resp == Declined(NotACustomer)
    ensures (user.Some? && user.value.userType == CustomerUser && user.value.customerId.Some?
             && FindCustomer(db.customers, user.value.customerId.value).None?) ==>
      resp == Declined(CustomerNotFound)
    ensures resp == Done <==>
      user.Some? && user.value.userType == CustomerUser && user.value.customerId.Some?
      && FindCustomer(db.customers, user.value.customerId.value).Some?
    ensures resp == Done ==>
      db.addresses == SavedAddresses(old(db.addresses), user.value.customerId.value, street, city, country)
  {
    if user.None? {
      return LoginRequired;
    }
    if user.value.userType != CustomerUser || user.value.customerId.None? {
      return Declined(NotACustomer);
    }
    var customerId := user.value.customerId.value;
    if FindCustomer(db.customers, customerId).None? {
      return Declined(CustomerNotFound);
    }
    db.addresses := SavedAddresses(db.addresses, customerId, street, city, country);
    resp := Done;
  }

  /** `Delete` (POST): removes the address of the signed-in user's customer, if there is
      one. Any user with a customer id may do this; the user type is not checked. */
  method Delete(db: ShopDb, user: Option<User>) returns (resp: Response)
    modifies db`addresses
    ensures resp == Done
    ensures (user.None? || user.value.customerId.None?
             || FindCustomer(db.customers, user.value.customerId.value).None?) ==>
      db.addresses == old(db.addresses)
    ensures (user.Some? && user.value.customerId.Some?
             && FindCustomer(db.customers, user.value.customerId.value).Some?) ==>
      db.addresses == DeletedAddress(old(db.addresses), user.value.customerId.value)
  {
    resp := Done;
    if user.None? || user.value.customerId.None? {
      return;
    }
    var customerId := user.value.customerId.value;
    if FindCustomer(db.customers, customerId).Some? {
      db.addresses := DeletedAddress(db.addresses, customerId);
    }
  }
}
