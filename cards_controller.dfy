/** Controllers/CardsController.cs: the demo card store. A static customer (id 1) holds at
    most one card in a mutable field; the actions read and overwrite that one slot. The
    actions perform no validation. */
module CardsController {
  import opened Common
  import opened CreditCards
  import opened Data

  /** The id of the static demo customer. */
  const DemoCustomerId: int := 1

  /** The static `DB.Customer` reduced to its card slot. */
  class DemoStore {
    var card: Option<CreditCard>

    /** Whatever sits in the slot has id 1 and belongs to the demo customer. */
    predicate Linked()
      reads this
    {
      card.Some? ==> card.value.id == 1 && card.value.customerId == Some(DemoCustomerId)
    }

    /** The static initialiser: the demo card, which is valid, linked to customer 1. */
    constructor ()
      ensures card == Some(DemoCard())
      ensures Linked() && Valid(card.value)
    {
      card := Some(DemoCard());
      DemoCardValid();
    }

    /** `Create` (GET): the form is shown only while the slot is empty; otherwise the
        caller is sent back to the index. */
    method CreateForm() returns (resp: Response)
      ensures resp == ShowForm <==> card.None?
      ensures resp == Done <==> card.Some?
    {
      if card.Some? {
        resp := Done;
      } else {
        resp := ShowForm;
      }
    }

    /** `Create` (POST): installs the posted card as card 1 of the demo customer, replacing
        whatever was there. */
    method Create(form: CreditCard) returns (resp: Response)
      modifies this
      ensures resp == Done
      ensures card == Some(form.(id := 1, customerId := Some(DemoCustomerId)))
      ensures Linked()
      ensures Valid(card.value) <==> Valid(form)
    {
      OwnerIrrelevant(form, Some(DemoCustomerId), form.sellerId, 1);
      card := Some(form.(id := 1, customerId := Some(DemoCustomerId)));
      resp := Done;
    }

    /** `Edit` (POST): when the slot holds a card with that id, the five form fields are
        copied onto it; otherwise nothing changes. */
    method Edit(id: int, form: CreditCard) returns (resp: Response)
      modifies this
      ensures resp == Done
      ensures old(card).Some? && old(card).value.id == id ==>
        card == Some(CopyCardFields(old(card).value, form)) && (Valid(card.value) <==> Valid(form))
      ensures !(old(card).Some? && old(card).value.id == id) ==> card == old(card)
      ensures old(Linked()) ==> Linked()
    {
      if card.Some? && card.value.id == id {
        card := Some(CopyCardFields(card.value, form));
      }
      resp := Done;
    }

    /** `DeleteConfirmed`: empties the slot when it holds a card with that id. */
    method DeleteConfirmed(id: int) returns (resp: Response)
      modifies this
      ensures resp == Done
      ensures old(card).Some? && old(card).value.id == id ==> card.None?
      ensures !(old(card).Some? && old(card).value.id == id) ==> card == old(card)
      ensures old(Linked()) ==> Linked()
    {
      if card.Some? && card.value.id == id {
        card := None;
      }
      resp := Done;
    }
  }
}
