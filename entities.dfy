/** The remaining records the core reads and writes: Models/Product.cs, Models/Category.cs,
    Models/Customer.cs, Models/Address.cs and Models/User.cs. Nullable strings are `Option`;
    prices are integer cents. */
module Entities {
  import opened Common

  datatype Product = Product(
    id: int,
    name: string,
    description: Option<string>,
    price: int,
    stockQuantity: int,
    imageUrl: Option<string>,
    sellerId: int,
    categoryId: int)

  /** A category. The record in Models/Category.cs has no image column, but the category
      controllers read and write `ImageUrl`, so the model carries it. */
  datatype Category = Category(
    id: int,
    name: string,
    description: Option<string>,
    imageUrl: Option<string>)

  /** A customer profile; `address` is the free-text address column. */
  datatype Customer = Customer(
    id: int,
    fullName: string,
    email: string,
    phoneNumber: Option<string>,
    address: Option<string>)

  /** A postal address record owned by one customer. */
  datatype Address = Address(
    id: int,
    street: string,
    city: string,
    country: string,
    customerId: int)

  /** The account kind of a signed-in user. */
  datatype UserType = AdminUser | CustomerUser | SellerUser

  /** The signed-in user, as far as the core reads it. */
  datatype User = User(
    userType: UserType,
    customerId: Option<int>,
    sellerId: Option<int>,
    userName: Option<string>,
    email: Option<string>)
}
