# UShop core in Dafny

This project models the rule-bearing core of UShop, a server-rendered ASP.NET Core shop, and
proves properties of it. The database is one object (`Data.ShopDb`) holding a sequence of rows
per table: products, categories, customers, carts, item lines, orders, credit cards and
addresses. Controller actions are methods on that object. Each `SaveChangesAsync` is one step,
and the signed-in user, the clock and uploaded-image URLs are parameters.

What is covered:

- **Orders** (`order.dfy`, `orders_controller.dfy`):
  - the order record;
  - the aggregate `CurrentStatus` getter and setter, and the order total;
  - the status guard and the admin actions `UpdateStatus`, `Cancel`, `Create` (its item-building loop) and `DeleteConfirmed`.
- **Lines and carts** (`item.dfy`, `cart.dfy`, `cart_controller.dfy`):
  - one `Item` record serves as both a cart line and an order line, linked through `CartId`/`OrderId`;
  - cart and order totals;
  - add-or-increment, remove, and positive-only quantity update;
  - cart checkout (GET preview and POST) and "buy now".
- **Checkout page** (`checkout_controller.dfy`):
  - the profile lookup or creation by e-mail, and guest profiles;
  - the completeness check;
  - the saved-card versus new-card branch;
  - stamping the order.
- **Cards** (`credit_card.dfy`, `credit_card_controller.dfy`, `cards_controller.dfy`):
  - the validation attributes as a predicate, with their messages;
  - the owner-scoped card table;
  - the single-slot demo card store, as a class.
- **Addresses** (`address_controller.dfy`): upsert and delete.
- **Catalogue** (`catalogue.dfy`, `products_controller.dfy`, `product_controller.dfy`, `categories_controller.dfy`, `category_controller.dfy`):
  - the product search, category and seller filters;
  - the product and category edit actions;
  - the category search;
  - the "category still has products" guard.
- **Role seeding** (`data_seeder.dfy`): a loop over a role store object.

Conventions:

- Money is integer cents, because prices are `decimal(18,2)`.
- Nullable strings are `Option<string>`.
- A lookup returns the first matching row.
- A new identity value lies above every stored key and reference.
- `Crash` stands for an unhandled NullReferenceException. Nothing of that request is saved.

## Model

| member | source | states |
|---|---|---|
| Items.TotalPrice | Models/Item.cs:33 | a line total is 0 for quantity 0, equals the unit price for quantity 1, and is non-negative for non-negative factors |
| Items.TotalPriceGrows | Models/Item.cs:33 | raising the quantity by d raises the line total by d unit prices |
| Items.Sum | Models/Cart.cs:21 | a sum of lines with non-negative quantities and prices is non-negative |
| Items.SumConcat | Models/Cart.cs:21 | the sum over two runs of lines is the sum of their sums |
| Items.SumPermutation | Models/Cart.cs:21 | the sum does not depend on the order of the lines |
| Items.SumReplace | Models/Cart.cs:21 | replacing one line changes the sum by the difference of the two line totals |
| Items.CopyLines | Controllers/CartController.cs:197-202 | each copy has the same product, quantity and unit price as its original, a fresh id, the new order's id and no cart |
| Items.CopyLinesTotal | Controllers/CartController.cs:197-202 | the copies total exactly what the originals total |
| Carts.Lines | Models/Cart.cs:18 | a cart's lines are exactly the item rows whose CartId is the cart's id |
| Carts.NewCartIsEmpty | Models/Cart.cs:18-21 | a cart no row refers to has no lines and a total of 0 |
| Carts.TotalAmountAppend | Models/Cart.cs:21 | adding a cart line raises the total by that line's total; a row of another cart leaves it unchanged |
| Carts.TotalAmountReplace | Models/Cart.cs:21 | replacing a cart line by another changes the total by the difference of their totals |
| Carts.TotalAmountReorder | Models/Cart.cs:21 | the cart total does not depend on the order of the rows |
| Orders.CurrentStatus | Models/Order.cs:31-43 | the aggregate is either the stored status or one of the per-seller statuses, and is the stored status when there are none |
| Orders.CurrentStatusUniform | Models/Order.cs:35-39 | non-empty uniform statuses decide the aggregate, whatever the stored status is |
| Orders.CurrentStatusMixed | Models/Order.cs:41-42 | two disagreeing statuses leave the stored status in charge |
| Orders.SetCurrentStatus | Models/Order.cs:44-48 | the setter writes the stored status and changes no other field |
| Orders.SetCurrentStatusUniform | Models/Order.cs:33-48 | with uniform statuses, setting the aggregate does not change what the getter returns |
| Orders.SetCurrentStatusMixed | Models/Order.cs:33-48 | with empty or mixed statuses, the getter returns what was set |
| Orders.Lines | Models/Order.cs:24 | an order's lines are exactly the item rows whose OrderId is the order's id |
| Orders.NoLinesTotalZero | Models/Order.cs:52 | an order with no lines totals 0 |
| Orders.TotalAmountExtend | Models/Order.cs:52 | adding lines of the order adds their sum; adding rows of other orders changes nothing |
| Orders.TotalAmountReorder | Models/Order.cs:52 | the order total does not depend on the order of the rows |
| Orders.NewOrderDefaults | Models/Order.cs:19-28 | a new order reads as Pending, pays cash on delivery, has no sellers and totals 0 |
| OrdersController.GuardIsAllowedMoves | Controllers/OrdersController.cs:176-180 | the guard allows exactly Pending→Processing, Pending→Cancelled, Processing→Shipped, Processing→Cancelled and Shipped→Delivered |
| OrdersController.TerminalStatuses | Controllers/OrdersController.cs:181-183 | Delivered, Cancelled, Ordered, OutForDelivery and Returned have no successor |
| OrdersController.MoveMakesProgress | Controllers/OrdersController.cs:176-184 | every allowed move strictly lowers the moves left, so no status moves to itself |
| OrdersController.CancelAgreesWithGuard | Controllers/OrdersController.cs:259-263 | an order is cancellable exactly when the guard allows the move to Cancelled |
| OrdersController.ChainBound | Controllers/OrdersController.cs:176-184 | a chain of allowed moves has at most three steps |
| OrdersController.StatusAfter | Controllers/OrdersController.cs:159-165 | an update request either leaves the status alone or makes an allowed move to the requested status |
| OrdersController.UpdatesBounded | Controllers/OrdersController.cs:153-185 | at most three of any series of update requests change an order's status |
| OrdersController.UpdateStatus | Controllers/OrdersController.cs:153-170 | unknown id is NotFound; a rejected move changes nothing; otherwise only that order's status becomes the new one |
| OrdersController.Cancel | Controllers/OrdersController.cs:224-256 | unknown id is NotFound; a Pending or Processing order becomes Cancelled; any other order is unchanged and declined |
| OrdersController.AdminLines | Controllers/OrdersController.cs:72-91 | the loop adds at most one line per list entry |
| OrdersController.AdminLinesSound | Controllers/OrdersController.cs:72-91 | every added line belongs to the order, has a positive quantity, and names an existing product at its current price |
| OrdersController.AdminLinesComplete | Controllers/OrdersController.cs:72-91 | when every quantity is positive and every product exists, every entry becomes a line |
| OrdersController.Create | Controllers/OrdersController.cs:61-104 | an invalid form changes nothing; otherwise the order is stored, and lines are added only when both lists are present with equal length |
| OrdersController.DeleteConfirmed | Controllers/OrdersController.cs:204-219 | removes the order and all its lines; a missing id changes nothing |
| OrdersController.DeleteKeepsOthers | Controllers/OrdersController.cs:210-216 | after the delete no line refers to the order, and every other line is kept |
| CartController.CartFor | Controllers/CartController.cs:59-68 | the cart used belongs to the customer; a newly created cart has no lines |
| CartController.LineFor | Controllers/CartController.cs:70 | finds a line of that cart for that product, or reports there is none |
| CartController.AddKeepsOneLinePerProduct | Controllers/CartController.cs:70-88 | adding keeps at most one line per product in every cart and leaves every other row unchanged |
| CartController.AddToCartTotal | Controllers/CartController.cs:70-88 | the cart total grows by what the touched line gains: the added quantity (wrapped to 32 bits) at the line's old unit price, or a whole new line at the product's price; an unknown product changes nothing |
| CartController.AddToCart | Controllers/CartController.cs:53-92 | nobody signed in is Unauthorized; a missing cart is created; the item table becomes the add-or-increment result (an omitted quantity is passed as the default 1) |
| CartController.Remove | Controllers/CartController.cs:96-105 | deletes only the row with that id, if present |
| CartController.RemoveTotal | Controllers/CartController.cs:98-103 | removing a cart row lowers the cart total by that row's total |
| CartController.UpdateQuantity | Controllers/CartController.cs:109-118 | a positive quantity replaces the row's quantity; otherwise nothing changes |
| CartController.UpdateQuantityTotal | Controllers/CartController.cs:111-116 | the cart total changes by the quantity difference times the unit price |
| CartController.CheckoutForm | Controllers/CartController.cs:122-148 | nobody signed in is Unauthorized; a missing or empty cart is declined; a signed-in customer with a non-empty cart always gets the preview, a Pending order of the customer, dated now, over exactly the cart's lines, summing to the cart total |
| CartController.ResolvePayment | Controllers/CartController.cs:164-165 | a zero payment method becomes cash on delivery; any other is kept |
| CartController.StoredCardIsCustomers | Controllers/CartController.cs:168-187 | afterwards the customer has a card carrying the posted fields, and other customers' cards are unchanged |
| CartController.HandleCard | Controllers/CartController.cs:167-188 | the card table changes only for a credit-card order with a posted card and an existing cart customer; the block crashes exactly when such an order has no cart |
| CartController.CheckoutMovesCart | Controllers/CartController.cs:190-209 | the order gets same-purchase copies of the cart lines, its total equals the old cart total, the cart ends empty, and other rows are kept |
| CartController.Checkout | Controllers/CartController.cs:152-213 | a missing cart crashes with nothing saved; otherwise a Pending order with the resolved payment method replaces the cart's lines |
| CartController.BuyNowSingleLine | Controllers/CartController.cs:291-313 | "buy now" gives the order exactly one line of the quantity at the price, and empties the cart |
| CartController.BuyNow | Controllers/CartController.cs:250-317 | nobody signed in is Unauthorized; a missing cart or an unknown product stores no order (Crash or NotFound); with a cart, the card table becomes the card block's result before the product lookup, whether or not the product exists; otherwise a single-line Pending order at the product's current price, with the cart cleared |
| CheckoutController.NewProfile | Controllers/checkoutController.cs:81-92 | a profile created for a signed-in user has an empty address |
| CheckoutController.GuestProfile | Controllers/checkoutController.cs:94-103 | a guest profile takes the posted fields, falling back to "Guest" and empty strings |
| CheckoutController.NewProfilesIncomplete | Controllers/checkoutController.cs:81-112 | a just-created profile, and a guest profile without posted fields, are always incomplete |
| CheckoutController.GuestComplete | Controllers/checkoutController.cs:96-112 | a guest profile is complete exactly when a non-empty e-mail and address were posted |
| CheckoutController.ProfileOf | Controllers/checkoutController.cs:75-93 | the user's profile is the first customer with their e-mail; otherwise a new profile is saved |
| CheckoutController.Index | Controllers/checkoutController.cs:21-65 | the page shows an empty, cash-on-delivery, Pending order for the user's profile, the new profile saved under a fresh id when none has their e-mail, or for a guest profile |
| CheckoutController.LinkCard | Controllers/checkoutController.cs:129-131 | the new card is added linked to the customer; the customer's previous card loses its link; other cards are unchanged |
| CheckoutController.LinkCardIsCustomers | Controllers/checkoutController.cs:117-132 | after linking, the customer's card is the new one, and it is valid exactly when the posted card is |
| CheckoutController.StampedOrder | Controllers/checkoutController.cs:135-141 | the stored order has the customer, the time, status Pending and the posted payment method |
| CheckoutController.Place | Controllers/checkoutController.cs:69-144 | the profile is the found one, a new one under a fresh id, or the guest profile under a fresh id; the outcome is declined exactly for an incomplete profile, a crash exactly when a saved card is reused without posted customer fields, the form again exactly for an invalid new card, and Done otherwise (always for cash on delivery); a placed order is stamped and stored, a new card is linked, a reused card adds no row, and a guest profile is saved only with its order |
| CreditCards.Errors | Models/CreditCard.cs:12-29 | validation reports at most seven messages, one per rule |
| CreditCards.ValidIffNoErrors | Models/CreditCard.cs:12-29 | a card is valid exactly when validation reports no message |
| CreditCards.CvvExactly | Models/CreditCard.cs:27-28 | a valid CVV is exactly three or four decimal digits |
| CreditCards.NameBounds | Models/CreditCard.cs:15-16 | a valid cardholder name has 2 to 50 characters, not all of them white space |
| CreditCards.OwnerIrrelevant | Models/CreditCard.cs:31-39 | the id and the owner links take no part in validation |
| CreditCards.CopyCardFields | Controllers/CreditCardController.cs:144-148 | copying the five form fields keeps id and owner links, and the result is valid exactly when the form is |
| CreditCards.DemoCardValid | Controllers/CardsController.cs:16-25 | the demo card satisfies every rule |
| Data.ShopDb.constructor | Data/UShopDBContext.cs:16-22 | a new database has empty tables |
| Data.FindOrder | Controllers/OrdersController.cs:155 | finds the first order with the id, or reports that none has it |
| Data.FindProduct | Controllers/CartController.cs:78 | finds the first product with the id, or reports that none has it |
| Data.FindCategory | Controllers/CategoriesController.cs:138 | finds the first category with the id, or reports that none has it |
| Data.FindCustomer | Controllers/AddressController.cs:36-38 | finds the first customer with the id, or reports that none has it |
| Data.FindCustomerByEmail | Controllers/checkoutController.cs:77-79 | finds the first customer with the user's e-mail; a user without e-mail matches nobody |
| Data.FindItem | Controllers/CartController.cs:98 | finds the first item row with the id, or reports that none has it |
| Data.FindCartOf | Controllers/CartController.cs:59-61 | finds the customer's first cart, or reports there is none |
| Data.CardOf | Controllers/checkoutController.cs:117 | finds the card linked to the customer, or reports there is none |
| Data.AddressOf | Controllers/AddressController.cs:47 | finds the customer's address record, or reports there is none |
| CreditCardController.GetOwnerId | Controllers/CreditCardController.cs:24-36 | a customer resolves to its CustomerId, a seller to its SellerId, anyone else to no owner; an owner id always comes with a kind |
| CreditCardController.FindOwned | Controllers/CreditCardController.cs:108-112 | a lookup finds only a card with the id whose owner link for the caller's kind is the caller |
| CreditCardController.FindOwnedScoped | Controllers/CreditCardController.cs:135-139 | without an owner kind nothing is found; a found card has the id and the caller's owner link |
| CreditCardController.Inserted | Controllers/CreditCardController.cs:90-95 | the inserted card is owned by the caller under its new id and is valid exactly when the posted card is |
| CreditCardController.CreatedIsFound | Controllers/CreditCardController.cs:90-96 | a created card is the one the owner's lookups find under its new id |
| CreditCardController.Create | Controllers/CreditCardController.cs:81-99 | no owner id is Unauthorized; an invalid card is shown again; otherwise one owned card is added |
| CreditCardController.Edit | Controllers/CreditCardController.cs:123-154 | a route id different from the card id is NotFound; the edit succeeds exactly when the caller has an owner id, the ids match, the card is valid and the caller owns a card with that id; then only that card's five fields change, keeping id and owner |
| CreditCardController.DeleteConfirmed | Controllers/CreditCardController.cs:178-197 | only a card the caller owns under that id is removed; otherwise the table is unchanged |
| CardsController.DemoStore.constructor | Controllers/CardsController.cs:9-26 | the store starts with the valid card 1 of customer 1 |
| CardsController.DemoStore.CreateForm | Controllers/CardsController.cs:38-43 | the form is shown exactly when the slot is empty |
| CardsController.DemoStore.Create | Controllers/CardsController.cs:48-54 | the posted card, as card 1 of customer 1, replaces whatever was in the slot; the stored card is valid exactly when the posted one is |
| CardsController.DemoStore.Edit | Controllers/CardsController.cs:69-80 | the five fields are copied only when the slot holds a card with that id; id and owner are kept |
| CardsController.DemoStore.DeleteConfirmed | Controllers/CardsController.cs:94-101 | the slot is emptied only when its card has that id |
| AddressController.SavedAddresses | Controllers/AddressController.cs:46-63 | with no address a record with exactly the given street, city and country is added; otherwise those fields of the record are overwritten, keeping its id |
| AddressController.SavedIsFound | Controllers/AddressController.cs:46-63 | after saving, the customer's address holds exactly the saved triple |
| AddressController.SaveIdempotent | Controllers/AddressController.cs:46-65 | saving the same triple twice leaves the table as saving it once |
| AddressController.SaveKeepsOneAddress | Controllers/AddressController.cs:47-56 | saving keeps at most one address per customer |
| AddressController.DeletedAddress | Controllers/AddressController.cs:83-86 | removes exactly one record when the customer has one; otherwise the table is unchanged |
| AddressController.DeleteLeavesNone | Controllers/AddressController.cs:79-88 | with one address per customer, after the delete the customer has no address, other customers' records are kept, and there is still one address per customer |
| AddressController.Save | Controllers/AddressController.cs:25-68 | nobody signed in goes to login; a non-customer or unknown customer is declined with nothing changed; otherwise the address is upserted |
| AddressController.Delete | Controllers/AddressController.cs:73-91 | any user with an existing customer id has that customer's address removed, whatever the user type; otherwise nothing changes |
| Catalogue.SearchAndCategory | Controllers/ProductsController.cs:76-88 | every listed product is in the table and passes the search and category filters |
| Catalogue.SearchAndCategoryIsConjunction | Controllers/ProductsController.cs:78-88 | the two filters compose by conjunction, in table order |
| Catalogue.SearchAndCategoryMembers | Controllers/ProdectController.cs:28-38 | a product is listed exactly when it is in the table, its name contains the search when one is given, and it is in the category when a positive one is given; `All` (lines 351-360) applies the same filters |
| Catalogue.RemoveUnusedCategory | Controllers/CategoriesController.cs:200-213 | removing a category no product belongs to keeps every product's category resolvable |
| ProductsController.Index | Controllers/ProductsController.cs:28-70 | no user gives an empty list; a non-seller gets the listing; every listed product is visible to the user and passes both filters |
| ProductsController.IndexMembers | Controllers/ProductsController.cs:42-57 | a product is listed exactly when it is visible to the user and passes both filters |
| ProductsController.SellerWithoutIdSeesNothing | Controllers/ProductsController.cs:42-45 | a seller user without a seller id sees no product |
| ProductsController.Edited | Controllers/ProductsController.cs:259-277 | the id is kept; the image changes only when a new file was uploaded; the result is valid exactly when the form is |
| ProductsController.EditedIdempotent | Controllers/ProductsController.cs:259-277 | posting the same form again changes nothing more, and the result does not depend on the overwritten fields |
| ProductsController.Edit | Controllers/ProductsController.cs:242-308 | an id mismatch or unknown product is NotFound; an invalid form is shown again; otherwise only that product is edited |
| ProductController.BySeller | Controllers/ProdectController.cs:370-384 | lists exactly the products of the seller |
| ProductController.ByCategory | Controllers/ProdectController.cs:335-344 | lists exactly the products of the category, with no positivity check |
| ProductController.ByCategoryAgainstListing | Controllers/ProdectController.cs:337-340 | for a positive id it agrees with the listing filter; for other ids the listing ignores the category |
| ProductController.SellerAndCategoryCommute | Controllers/ProdectController.cs:372-373 | seller and category filters give the same products in either order |
| ProductController.Added | Controllers/ProdectController.cs:193-194 | a posted product with the unset key 0 is inserted as itself under an id no stored product has, and is found under it |
| ProductController.Edit | Controllers/ProdectController.cs:182-220 | a route id different from the product id is NotFound; an invalid product re-shows the form; key 0 inserts the product as new; a missing row for any other key is NotFound; otherwise the posted product replaces the stored row and stays findable under its id |
| ProductController.Deleted | Controllers/ProdectController.cs:258-269 | removes the product with that id if there is one; a missing id changes nothing |
| ProductController.DeletedIsGone | Controllers/ProdectController.cs:258-269 | with unique ids, the product can no longer be found and every other product is kept |
| ProductController.DeleteConfirmed | Controllers/ProdectController.cs:254-277 | the product table becomes the one without that product |
| CategoriesController.Index | Controllers/CategoriesController.cs:40-53 | a null or white-space search lists all; otherwise the listed categories are exactly those whose name, or non-null description, contains the search |
| CategoriesController.NameHitIsListed | Controllers/CategoriesController.cs:46-47 | a category whose name contains the search at some position is listed |
| CategoriesController.Edited | Controllers/CategoriesController.cs:141-147 | name and description are copied; the image changes only when a new file was uploaded |
| CategoriesController.Edit | Controllers/CategoriesController.cs:131-165 | an id mismatch or unknown category is NotFound; an invalid form is shown again; otherwise only that category is edited |
| CategoriesController.DeleteConfirmed | Controllers/CategoriesController.cs:192-220 | a category with products is kept and the action declines; otherwise it is removed; a missing id changes nothing |
| CategoryController.Created | Controllers/CategoryController.cs:46-56 | a created category holds only the bound name and description, and is found under its new id |
| CategoryController.Create | Controllers/CategoryController.cs:46-64 | a valid form adds exactly one category; an invalid one changes nothing |
| CategoryController.Bound | Controllers/CategoryController.cs:124 | the edit form binds only id, name and description |
| CategoryController.Edit | Controllers/CategoryController.cs:124-158 | a route id different from the category id is NotFound; an invalid form re-shows the form; it succeeds exactly for a valid form with key 0 or naming an existing row; key 0 inserts the bound fields as a new category, as Create does; otherwise the bound fields replace the row (clearing the image) |
| CategoryController.DeleteConfirmed | Controllers/CategoryController.cs:193-221 | a category with products is kept and the action declines; otherwise it is removed; a missing id changes nothing |
| DataSeeder.SeedingAppends | Data/DataSeeder.cs:11-17 | seeding only appends: existing roles keep their places, and new roles are among the seeded names |
| DataSeeder.SeedingCovers | Data/DataSeeder.cs:9-17 | after seeding every seeded name is a role |
| DataSeeder.SeedingPresentIsNoop | Data/DataSeeder.cs:13-15 | a store that has every role is left as it is |
| DataSeeder.SeedingIdempotent | Data/DataSeeder.cs:11-17 | seeding twice gives the same store as seeding once |
| DataSeeder.SeedingAddsNoDuplicate | Data/DataSeeder.cs:13-15 | a role that exists is not created again, so a store without duplicates stays so |
| DataSeeder.RoleStore.SeedRoles | Data/DataSeeder.cs:7-18 | after seeding Admin, Seller and Customer exist and the earlier roles are kept as a prefix |

## Left out

- Image upload and deletion (file-system I/O with generated names): an uploaded image is the URL it would get, given as a parameter.
- Authentication, `[Authorize]` role filters and the `UserManager` calls: the signed-in user is a parameter. `OrdersController.Cancel` has no role or ownership check of its own, and the model adds none.
- EF Core mechanics are not modelled:
  - `Include` loading;
  - concurrency-exception handling beyond the NotFound it produces;
  - generic `catch (Exception)` branches, such as a save refused by the database;
  - the schema.
- Data/UShopDBContext.cs declares no tables for items, carts, credit cards or addresses, although the controllers use them. The model assumes one table of each.
- Non-atomic saves are steps inside one method, and no rollback between them is modelled:
  - the card is saved before the order (Controllers/CartController.cs:186, 209);
  - the order is saved before its lines (Controllers/OrdersController.cs:67, 93).
- The `PaymentMethod` enum declaration is not part of this model. A posted zero is `None`, which the cart controller maps to cash on delivery.
- Unicode white space and digits, SQL collation and case folding:
  - `Contains` is an ordinal substring test;
  - white space is the ASCII set;
  - role names compare exactly, whereas the role store normalises case.
- `CartController.Checkout` with an existing but empty cart still stores an order with no lines. The model keeps this as written.
- `CartController.Index` and the GET form of BuyNow only render views. They are not part of this model.
- The posted `Items` of the order in `CheckoutController.Place` are not modelled. Only the stamped order row is stored.
- CheckoutController.Place: the posted order's `Customer` is reduced to whether customer fields were posted. Reusing a saved card when none were posted is the crash case; other navigation details of the posted order are not modelled.
- `CreditCardController.Create` gives the posted card a fresh identity value. The model does not cover a posted non-zero id, which the database would refuse.
- Address strings are posted as given. A missing form field would be null, and the database would refuse it; that path is not modelled.
- Models/Category.cs declares no image column, but both category controllers read or write `ImageUrl`, so the category record carries one.
- `CategoryController.Edit` writes back only the bound fields, so the model clears the image column.
- Where the behaviour described for the system and the code disagree, the model follows the code:
  - the status guard uses Processing, not a Pending→Ordered→OutForDelivery pipeline;
  - `Sellers` and `Statuses` are never written;
  - adding to the cart does not clamp the quantity to stock.
- OrdersController.UpdatesBounded: about sequences of accepted updates only. Statuses written outside the guard (the edit form) are not modelled.
