/** The query-string filters of the ingredient and recipe lists, as filters over the
    sequence of rows the query set would return. The case-insensitive regular-expression
    lookup `name__iregex` is an opaque predicate passed in. */
module Filters {

  import opened Seqs
  import opened Http
  import opened AppModels
  import opened CartModels

  /** `if_user_is_anonymous`: an anonymous requester gets the empty query set, anyone else
      the result of the wrapped filter. */
  function IfUserIsAnonymous<T>(requester: Requester, queryset: seq<T>, filter: seq<T> -> seq<T>): (r: seq<T>)
    ensures !requester.IsAuthenticated() ==> r == []
    ensures requester.IsAuthenticated() ==> r == filter(queryset)
  {
    if !requester.IsAuthenticated() then [] else filter(queryset)
  }

  /** `IngredientFilter.name_search`: an empty value leaves the query set as it is; any
      other keeps exactly the ingredients whose name matches it. */
  function NameSearch(queryset: seq<IngredientRow>, value: string, iregex: (string, string) -> bool): (r: seq<IngredientRow>)
    ensures value == "" ==> r == queryset
    ensures value != "" ==> forall x :: x in r <==> x in queryset && iregex(value, x.name)
    ensures multiset(r) <= multiset(queryset)
  {
    if value == "" then queryset
    else Keep(queryset, (x: IngredientRow) => iregex(value, x.name))
  }

  /** The join `favorites__user=user`: recipes the user has marked as favorite. */
  function FavoritedBy(queryset: seq<RecipeId>, user: UserId, favorites: seq<FavoriteRecipe>): (r: seq<RecipeId>)
    ensures forall x :: x in r <==> x in queryset && FavoriteRecipe(user, x) in favorites
    ensures multiset(r) <= multiset(queryset)
  {
    Keep(queryset, (x: RecipeId) => FavoriteRecipe(user, x) in favorites)
  }

  /** The join `cart_items__cart__user=user`: recipes in the user's cart. */
  function InCartOf(queryset: seq<RecipeId>, user: UserId, carts: map<UserId, CartId>, cartItems: seq<CartItem>): (r: seq<RecipeId>)
    ensures forall x :: x in r <==> x in queryset && user in carts && CartItem(carts[user], x) in cartItems
    ensures multiset(r) <= multiset(queryset)
  {
    Keep(queryset, (x: RecipeId) => user in carts && CartItem(carts[user], x) in cartItems)
  }

  /** `RecipeFilter.get_is_favorited` under `if_user_is_anonymous`; `value` is the number
      given in the query string and counts as set when it is not zero. */
  function GetIsFavorited(queryset: seq<RecipeId>, requester: Requester, value: real, favorites: seq<FavoriteRecipe>)
    : (r: seq<RecipeId>)
    ensures !requester.IsAuthenticated() ==> r == []
    ensures requester.IsAuthenticated() && value == 0.0 ==> r == queryset
    ensures requester.IsAuthenticated() && value != 0.0 ==>
      forall x :: x in r <==> x in queryset && FavoriteRecipe(requester.id, x) in favorites
    ensures multiset(r) <= multiset(queryset)
  {
    IfUserIsAnonymous(requester, queryset,
      (q: seq<RecipeId>) => if value != 0.0 && requester.Account? then FavoritedBy(q, requester.id, favorites) else q)
  }

  /** `RecipeFilter.get_is_in_shopping_cart` under `if_user_is_anonymous`. */
  function GetIsInShoppingCart(queryset: seq<RecipeId>, requester: Requester, value: real,
                               carts: map<UserId, CartId>, cartItems: seq<CartItem>): (r: seq<RecipeId>)
    ensures !requester.IsAuthenticated() ==> r == []
    ensures requester.IsAuthenticated() && value == 0.0 ==> r == queryset
    ensures requester.IsAuthenticated() && value != 0.0 ==>
      forall x :: x in r <==> x in queryset && requester.id in carts && CartItem(carts[requester.id], x) in cartItems
    ensures multiset(r) <= multiset(queryset)
  {
    IfUserIsAnonymous(requester, queryset,
      (q: seq<RecipeId>) => if value != 0.0 && requester.Account? then InCartOf(q, requester.id, carts, cartItems) else q)
  }

  /** Filtering twice by favorites gives what filtering once gives. */
  lemma {:induction false} FavoritedByIdempotent(queryset: seq<RecipeId>, user: UserId, favorites: seq<FavoriteRecipe>)
    ensures FavoritedBy(FavoritedBy(queryset, user, favorites), user, favorites) == FavoritedBy(queryset, user, favorites)
  {
    KeepAll(FavoritedBy(queryset, user, favorites), (x: RecipeId) => FavoriteRecipe(user, x) in favorites);
  }
}
