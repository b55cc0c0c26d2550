/**
 * The document shapes of the database (one datatype per mongoose schema, keeping the
 * fields the controllers read or write) and the database itself, a class whose fields
 * are the collections, each a map from document id to document.
 */
module Store {
  import opened Common

  const AdminRole: string := "admin"
  const CustomerRole: string := "customer"

  /** A login account; `userType` is one of the two roles the login schema enumerates. */
  datatype Login = Login(email: string, passwordHash: string, userType: string, userRef: Option<Id>)

  /** A user profile, linked to exactly one login. */
  datatype User = User(name: string, email: string, phone: string, loginRef: Id)

  /** A product: stock (`quantity`, a JavaScript number, so possibly negative), its ratings and their mean. */
  datatype Product = Product(productName: string, quantity: int, ratings: seq<Id>, averageRating: real)

  /** A (product, quantity) pair of an order or a cart. */
  datatype LineItem = LineItem(product: Id, quantity: int)

  /** No two line items name the same product. */
  predicate DistinctProducts(items: seq<LineItem>) {
    forall i, j :: 0 <= i < j < |items| ==> items[i].product != items[j].product
  }

  datatype OrderStatus = Pending | Completed | Cancelled

  datatype Order = Order(user: Id, products: seq<LineItem>, status: OrderStatus)

  /** A rating; the schema bounds `rating` to 1..5. `createdAt` is the timestamp mongoose adds. */
  datatype Rating = Rating(rating: int, message: string, user: Id, product: Id, createdAt: nat)

  datatype Notification = Notification(user: Id, title: string, message: string, read: bool, createdAt: nat)

  datatype Subcategory = Subcategory(subCategoryName: string, description: string)

  /** A category; its subcategories are embedded documents. */
  datatype Category = Category(categoryName: string, description: string, subcategories: seq<Subcategory>)

  datatype Submenu = Submenu(title: string, route: string, roles: seq<string>)

  datatype SidebarMenu = SidebarMenu(title: string, route: string, roles: seq<string>, submenu: seq<Submenu>)

  /** The identity the authentication middleware stores in `req.user`. */
  datatype AuthUser = AuthUser(id: Option<Id>, userType: Option<string>)

  /** The claims of a signed token: login signs `loginId` and `userType`; the middleware reads `id` and `userType`. */
  datatype TokenPayload = TokenPayload(id: Option<Id>, loginId: Option<Id>, userType: Option<string>)

  /** The database: one map per collection; carts are keyed by their owner's user id. */
  class Database {
    var logins: map<Id, Login>
    var users: map<Id, User>
    var products: map<Id, Product>
    var orders: map<Id, Order>
    var carts: map<Id, seq<LineItem>>
    var ratings: map<Id, Rating>
    var notifications: map<Id, Notification>
    var categories: map<Id, Category>
    var menus: map<Id, SidebarMenu>

    constructor ()
      ensures logins == map[] && users == map[] && products == map[] && orders == map[]
      ensures carts == map[] && ratings == map[] && notifications == map[]
      ensures categories == map[] && menus == map[]
    {
      logins, users, products, orders := map[], map[], map[], map[];
      carts, ratings, notifications := map[], map[], map[];
      categories, menus := map[], map[];
    }
  }
}
