/** The shopping cart tables: one cart per user, and the recipes in it. */
module CartModels {

  import opened AppModels

  type CartId = nat

  /** One row of the cart item table: a recipe in a cart. Both references are required. */
  datatype CartItem = CartItem(cart: CartId, recipe: RecipeId)

  /** `Cart.user` is a one-to-one field: each user has at most one cart (the map's keys)
      and no cart belongs to two users. */
  ghost predicate OneCartPerUser(carts: map<UserId, CartId>) {
    forall u, v :: u in carts && v in carts && u != v ==> carts[u] != carts[v]
  }
}
