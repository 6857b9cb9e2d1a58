/** The relational store behind the models: every table, the constraints the database
    keeps (`Valid`), and the ORM operations the views and serializers perform. An
    operation that would break a unique constraint fails with `IntegrityError` and changes
    nothing; deleting a row deletes the rows that reference it with `on_delete=CASCADE`,
    and refuses with `ProtectedError` when a `PROTECT` reference exists. */
module Database {

  import opened Wrappers
  import opened Seqs
  import opened AppModels
  import opened CartModels
  import opened UsersModels

  datatype DbError = IntegrityError | ProtectedError

  /** Cart items taken from a table whose rows reference existing carts and recipes
      reference existing carts and recipes too. */
  lemma FewerCartItemsStillReference(items: seq<CartItem>, kept: seq<CartItem>, cartIds: set<CartId>, recipeIds: set<RecipeId>)
    requires forall c :: c in items ==> c.cart in cartIds && c.recipe in recipeIds
    requires forall c :: c in kept ==> c in items
    ensures forall c :: c in kept ==> c.cart in cartIds && c.recipe in recipeIds
  {
  }

  class Db {
    var users: map<UserId, UserRow>
    var tags: map<TagId, TagRow>
    var ingredients: map<IngredientId, IngredientRow>
    var recipes: map<RecipeId, RecipeRow>
    var recipeTags: seq<RecipeTag>
    var recipeIngredients: seq<RecipeIngredient>
    var favorites: seq<FavoriteRecipe>
    var carts: map<UserId, CartId>
    var cartItems: seq<CartItem>
    var subscriptions: seq<Subscription>
    /** The next primary key to hand out; every key in use is smaller. */
    var nextId: nat

    /** Unique columns and positive small integers. */
    ghost predicate RowsValid()
      reads this`users, this`tags, this`ingredients, this`recipes
    {
      && UsersUnique(users)
      && TagsUnique(tags)
      && IngredientNamesUnique(ingredients)
      && RecipeNamesUnique(recipes)
      && (forall r :: r in recipes ==> recipes[r].author in users && recipes[r].cookingTime >= 0)
    }

    /** The recipe link tables reference existing rows; ingredient links are unique per pair. */
    ghost predicate LinksValid()
      reads this`recipeTags, this`recipeIngredients, this`recipes, this`tags, this`ingredients
    {
      && (forall l :: l in recipeTags ==> l.recipe in recipes && l.tag in tags)
      && (forall l :: l in recipeIngredients ==> l.recipe in recipes && l.ingredient in ingredients && l.amount >= 0)
      && OneLinkPerIngredient(recipeIngredients)
    }

    /** Favorites are unique and reference existing users and recipes. */
    ghost predicate FavoritesValid()
      reads this`favorites, this`users, this`recipes
    {
      && NoDuplicates(favorites)
      && (forall f :: f in favorites ==> f.user in users && f.recipe in recipes)
    }

    /** One cart per user; cart items are unique and reference existing carts and recipes. */
    ghost predicate CartsValid()
      reads this`carts, this`cartItems, this`users, this`recipes
    {
      && OneCartPerUser(carts)
      && carts.Keys <= users.Keys
      && NoDuplicates(cartItems)
      && (forall c :: c in cartItems ==> c.cart in carts.Values && c.recipe in recipes)
    }

    /** Subscriptions are unique and reference existing users. */
    ghost predicate SubscriptionsValid()
      reads this`subscriptions, this`users
    {
      && NoDuplicates(subscriptions)
      && (forall s :: s in subscriptions ==> s.user in users && s.author in users)
    }

    ghost predicate KeysBelowNext()
      reads this`users, this`tags, this`ingredients, this`recipes, this`carts, this`nextId
    {
      && (forall k :: k in users ==> k < nextId)
      && (forall k :: k in tags ==> k < nextId)
      && (forall k :: k in ingredients ==> k < nextId)
      && (forall k :: k in recipes ==> k < nextId)
      && (forall u :: u in carts ==> carts[u] < nextId)
    }

    ghost predicate Valid()
      reads this
    {
      && RowsValid() && LinksValid() && FavoritesValid() && CartsValid() && SubscriptionsValid()
      && KeysBelowNext()
    }

    /** An empty database. */
    constructor ()
      ensures Valid()
      ensures users == map[] && tags == map[] && ingredients == map[] && recipes == map[]
      ensures recipeTags == [] && recipeIngredients == [] && favorites == []
      ensures carts == map[] && cartItems == [] && subscriptions == []
    {
      users, tags, ingredients, recipes := map[], map[], map[], map[];
      recipeTags, recipeIngredients, favorites := [], [], [];
      carts, cartItems, subscriptions := map[], [], [];
      nextId := 0;
    }

    // ------------------------------------------------------------------ users

    /** `user.save()` for a new user. */
    method CreateUser(row: UserRow) returns (res: Result<UserId, DbError>)
      requires Valid()
      modifies this`users, this`nextId
      ensures Valid()
      ensures res.Ok? <==> forall u :: u in old(users) ==>
        old(users)[u].username != row.username && old(users)[u].email != row.email
      ensures res.Ok? ==> res.value !in old(users) && users == old(users)[res.value := row]
      ensures res.Err? ==> res.error == IntegrityError && users == old(users)
    {
      if exists u :: u in users && (users[u].username == row.username || users[u].email == row.email) {
        return Err(IntegrityError);
      }
      var id := nextId;
      users := users[id := row];
      nextId := nextId + 1;
      return Ok(id);
    }

    // --------------------------------------------------- tags and ingredients

    /** `super().save()` for a tag: an update when `pk` names an existing row, an insert
        (at `pk`, or at a fresh key when there is none) otherwise. */
    method SaveTag(pk: Option<TagId>, row: TagRow) returns (res: Result<TagId, DbError>)
      requires Valid()
      modifies this`tags, this`nextId
      ensures Valid()
      ensures pk.Some? ==> res.Ok? ==> res.value == pk.value
      ensures pk.None? ==> res.Ok? ==> res.value !in old(tags)
      ensures res.Ok? <==> forall t :: t in old(tags) && (pk.None? || t != pk.value) ==>
        old(tags)[t].name != row.name && old(tags)[t].slug != row.slug
      ensures res.Ok? ==> tags == old(tags)[res.value := row]
      ensures res.Err? ==> res.error == IntegrityError && tags == old(tags)
    {
      var id := if pk.Some? then pk.value else nextId;
      if exists t :: t in tags && t != id && (tags[t].name == row.name || tags[t].slug == row.slug) {
        return Err(IntegrityError);
      }
      tags := tags[id := row];
      if nextId <= id {
        nextId := id + 1;
      }
      return Ok(id);
    }

    /** `Ingridient.objects.create(...)`. */
    method CreateIngredient(row: IngredientRow) returns (res: Result<IngredientId, DbError>)
      requires Valid()
      modifies this`ingredients, this`nextId
      ensures Valid()
      ensures res.Ok? <==> forall i :: i in old(ingredients) ==> old(ingredients)[i].name != row.name
      ensures res.Ok? ==> res.value !in old(ingredients) && ingredients == old(ingredients)[res.value := row]
      ensures res.Err? ==> res.error == IntegrityError && ingredients == old(ingredients)
    {
      if exists i :: i in ingredients && ingredients[i].name == row.name {
        return Err(IntegrityError);
      }
      var id := nextId;
      ingredients := ingredients[id := row];
      nextId := nextId + 1;
      return Ok(id);
    }

    /** `tag.delete()`: refused while a recipe links to the tag (`on_delete=PROTECT`). */
    method DeleteTag(t: TagId) returns (res: Result<(), DbError>)
      requires Valid() && t in tags
      modifies this`tags
      ensures Valid()
      ensures res.Ok? <==> forall l :: l in recipeTags ==> l.tag != t
      ensures res.Ok? ==> tags == old(tags) - {t}
      ensures res.Err? ==> res.error == ProtectedError && tags == old(tags)
    {
      if exists l :: l in recipeTags && l.tag == t {
        return Err(ProtectedError);
      }
      tags := tags - {t};
      return Ok(());
    }

    /** `ingridient.delete()`: refused while a recipe uses it (`on_delete=PROTECT`). */
    method DeleteIngredient(i: IngredientId) returns (res: Result<(), DbError>)
      requires Valid() && i in ingredients
      modifies this`ingredients
      ensures Valid()
      ensures res.Ok? <==> forall l :: l in recipeIngredients ==> l.ingredient != i
      ensures res.Ok? ==> ingredients == old(ingredients) - {i}
      ensures res.Err? ==> res.error == ProtectedError && ingredients == old(ingredients)
    {
      if exists l :: l in recipeIngredients && l.ingredient == i {
        return Err(ProtectedError);
      }
      ingredients := ingredients - {i};
      return Ok(());
    }

    // ---------------------------------------------------------------- recipes

    /** `Recipe.objects.create(...)`. */
    method CreateRecipe(row: RecipeRow) returns (res: Result<RecipeId, DbError>)
      requires Valid() && row.author in users
      modifies this`recipes, this`nextId
      ensures Valid()
      ensures res.Ok? <==> row.cookingTime >= 0 && forall r :: r in old(recipes) ==> old(recipes)[r].name != row.name
      ensures res.Ok? ==> res.value !in old(recipes) && recipes == old(recipes)[res.value := row]
      ensures res.Ok? ==> forall l :: l in recipeTags ==> l.recipe != res.value
      ensures res.Ok? ==> forall l :: l in recipeIngredients ==> l.recipe != res.value
      ensures res.Err? ==> res.error == IntegrityError && recipes == old(recipes)
    {
      if row.cookingTime < 0 || exists r :: r in recipes && recipes[r].name == row.name {
        return Err(IntegrityError);
      }
      var id := nextId;
      recipes := recipes[id := row];
      nextId := nextId + 1;
      return Ok(id);
    }

    /** `instance.save()` for an existing recipe. */
    method SaveRecipe(id: RecipeId, row: RecipeRow) returns (res: Result<(), DbError>)
      requires Valid() && id in recipes && row.author in users
      modifies this`recipes
      ensures Valid()
      ensures res.Ok? <==> row.cookingTime >= 0 && forall r :: r in old(recipes) && r != id ==> old(recipes)[r].name != row.name
      ensures res.Ok? ==> recipes == old(recipes)[id := row]
      ensures res.Err? ==> res.error == IntegrityError && recipes == old(recipes)
    {
      if row.cookingTime < 0 || exists r :: r in recipes && r != id && recipes[r].name == row.name {
        return Err(IntegrityError);
      }
      recipes := recipes[id := row];
      return Ok(());
    }

    /** `RecipeTag.objects.create(recipe=..., tag=...)`; the table has no unique constraint. */
    method AddRecipeTag(r: RecipeId, t: TagId)
      requires Valid() && r in recipes && t in tags
      modifies this`recipeTags
      ensures Valid()
      ensures recipeTags == old(recipeTags) + [RecipeTag(r, t)]
    {
      recipeTags := recipeTags + [RecipeTag(r, t)];
    }

    /** `RecipeIngridient.objects.create(...)`: fails when the (ingredient, recipe) pair is linked already. */
    method AddRecipeIngredient(i: IngredientId, r: RecipeId, amount: int) returns (res: Result<(), DbError>)
      requires Valid() && r in recipes && i in ingredients && amount >= 0
      modifies this`recipeIngredients
      ensures Valid()
      ensures res.Ok? <==> !HasLink(old(recipeIngredients), i, r)
      ensures res.Ok? ==> recipeIngredients == old(recipeIngredients) + [RecipeIngredient(i, r, amount)]
      ensures res.Err? ==> res.error == IntegrityError && recipeIngredients == old(recipeIngredients)
    {
      if HasLink(recipeIngredients, i, r) {
        return Err(IntegrityError);
      }
      AppendLinkKeepsOne(recipeIngredients, RecipeIngredient(i, r, amount));
      recipeIngredients := recipeIngredients + [RecipeIngredient(i, r, amount)];
      return Ok(());
    }

    /** `instance.recipetag_set.all().delete()`. */
    method DeleteRecipeTags(r: RecipeId)
      requires Valid()
      modifies this`recipeTags
      ensures Valid()
      ensures recipeTags == Keep(old(recipeTags), (l: RecipeTag) => l.recipe != r)
    {
      recipeTags := Keep(recipeTags, (l: RecipeTag) => l.recipe != r);
    }

    /** `instance.recipeingridient_set.all().delete()`. */
    method DeleteRecipeIngredients(r: RecipeId)
      requires Valid()
      modifies this`recipeIngredients
      ensures Valid()
      ensures recipeIngredients == Keep(old(recipeIngredients), (l: RecipeIngredient) => l.recipe != r)
    {
      KeepKeepsOneLink(recipeIngredients, (l: RecipeIngredient) => l.recipe != r);
      recipeIngredients := Keep(recipeIngredients, (l: RecipeIngredient) => l.recipe != r);
    }

    /** `recipe.delete()`: its tag and ingredient links, favorites and cart items go with it. */
    method DeleteRecipe(r: RecipeId)
      requires Valid() && r in recipes
      modifies this`recipes, this`recipeTags, this`recipeIngredients, this`favorites, this`cartItems
      ensures Valid()
      ensures recipes == old(recipes) - {r}
      ensures recipeTags == Keep(old(recipeTags), (l: RecipeTag) => l.recipe != r)
      ensures recipeIngredients == Keep(old(recipeIngredients), (l: RecipeIngredient) => l.recipe != r)
      ensures favorites == Keep(old(favorites), (f: FavoriteRecipe) => f.recipe != r)
      ensures cartItems == Keep(old(cartItems), (c: CartItem) => c.recipe != r)
    {
      DeleteRecipeLinks(r);
      DeleteRecipeRelations(r);
      RemoveUnreferencedRecipe(r);
    }

    /** The tag and ingredient links of recipe `r` go. */
    method DeleteRecipeLinks(r: RecipeId)
      requires Valid()
      modifies this`recipeTags, this`recipeIngredients
      ensures Valid()
      ensures recipeTags == Keep(old(recipeTags), (l: RecipeTag) => l.recipe != r)
      ensures recipeIngredients == Keep(old(recipeIngredients), (l: RecipeIngredient) => l.recipe != r)
    {
      DeleteRecipeTags(r);
      DeleteRecipeIngredients(r);
    }

    /** The favorites and cart items of recipe `r` go. */
    method DeleteRecipeRelations(r: RecipeId)
      requires Valid()
      modifies this`favorites, this`cartItems
      ensures Valid()
      ensures favorites == Keep(old(favorites), (f: FavoriteRecipe) => f.recipe != r)
      ensures cartItems == Keep(old(cartItems), (c: CartItem) => c.recipe != r)
    {
      DeleteFavoritesOf(r);
      DeleteCartItemsOf(r);
    }

    /** The favorites of recipe `r` go. */
    method DeleteFavoritesOf(r: RecipeId)
      requires Valid()
      modifies this`favorites
      ensures Valid()
      ensures favorites == Keep(old(favorites), (f: FavoriteRecipe) => f.recipe != r)
    {
      KeepNoDuplicates(favorites, (f: FavoriteRecipe) => f.recipe != r);
      favorites := Keep(favorites, (f: FavoriteRecipe) => f.recipe != r);
    }

    /** The cart items holding recipe `r` go. */
    method DeleteCartItemsOf(r: RecipeId)
      requires Valid()
      modifies this`cartItems
      ensures Valid()
      ensures cartItems == Keep(old(cartItems), (c: CartItem) => c.recipe != r)
    {
      KeepNoDuplicates(cartItems, (c: CartItem) => c.recipe != r);
      ghost var before := cartItems;
      cartItems := Keep(cartItems, (c: CartItem) => c.recipe != r);
      FewerCartItemsStillReference(before, cartItems, carts.Values, recipes.Keys);
    }

    /** The recipe row itself goes once nothing references it. */
    method RemoveUnreferencedRecipe(r: RecipeId)
      requires Valid() && r in recipes
      requires forall l :: l in recipeTags ==> l.recipe != r
      requires forall l :: l in recipeIngredients ==> l.recipe != r
      requires forall f :: f in favorites ==> f.recipe != r
      requires forall c :: c in cartItems ==> c.recipe != r
      modifies this`recipes
      ensures Valid()
      ensures recipes == old(recipes) - {r}
    {
      recipes := recipes - {r};
    }

    // -------------------------------------------------------------- favorites

    /** `FavoriteRecipe.objects.get_or_create(user=..., recipe=...)`. */
    method GetOrCreateFavorite(f: FavoriteRecipe) returns (created: bool)
      requires Valid() && f.user in users && f.recipe in recipes
      modifies this`favorites
      ensures Valid()
      ensures created <==> f !in old(favorites)
      ensures favorites == if created then old(favorites) + [f] else old(favorites)
    {
      created := f !in favorites;
      if created {
        AppendNoDuplicates(favorites, f);
        favorites := favorites + [f];
      }
    }

    /** `favorite.delete()` for a row that exists. */
    method DeleteFavorite(f: FavoriteRecipe)
      requires Valid()
      modifies this`favorites
      ensures Valid()
      ensures favorites == Keep(old(favorites), (x: FavoriteRecipe) => x != f)
    {
      KeepNoDuplicates(favorites, (x: FavoriteRecipe) => x != f);
      favorites := Keep(favorites, (x: FavoriteRecipe) => x != f);
    }

    // ------------------------------------------------------------------ carts

    /** `Cart.objects.get_or_create(user=...)`. */
    method GetOrCreateCart(u: UserId) returns (cart: CartId, created: bool)
      requires Valid() && u in users
      modifies this`carts, this`nextId
      ensures Valid()
      ensures created <==> u !in old(carts)
      ensures !created ==> carts == old(carts)
      ensures created ==> cart !in old(carts).Values && carts == old(carts)[u := cart]
      ensures u in carts && carts[u] == cart
    {
      if u in carts {
        return carts[u], false;
      }
      cart := nextId;
      assert cart !in carts.Values;
      ghost var before := carts;
      carts := carts[u := cart];
      assert before.Values <= carts.Values by {
        forall c | c in before.Values
          ensures c in carts.Values
        {
          var v :| v in before && before[v] == c;
          assert carts[v] == c;
        }
      }
      nextId := nextId + 1;
      created := true;
    }

    /** `Cart_item.objects.get_or_create(cart=..., recipe=...)`. */
    method GetOrCreateCartItem(c: CartItem) returns (created: bool)
      requires Valid() && c.cart in carts.Values && c.recipe in recipes
      modifies this`cartItems
      ensures Valid()
      ensures created <==> c !in old(cartItems)
      ensures cartItems == if created then old(cartItems) + [c] else old(cartItems)
    {
      created := c !in cartItems;
      if created {
        AppendNoDuplicates(cartItems, c);
        cartItems := cartItems + [c];
      }
    }

    /** `cart_item.delete()`. */
    method DeleteCartItem(c: CartItem)
      requires Valid()
      modifies this`cartItems
      ensures Valid()
      ensures cartItems == Keep(old(cartItems), (x: CartItem) => x != c)
    {
      KeepNoDuplicates(cartItems, (x: CartItem) => x != c);
      cartItems := Keep(cartItems, (x: CartItem) => x != c);
    }

    /** `cart.delete()` for the cart of user `u`: its items go with it. */
    method DeleteCart(u: UserId) returns (cart: CartId)
      requires Valid() && u in carts
      modifies this`carts, this`cartItems
      ensures Valid()
      ensures cart == old(carts)[u]
      ensures carts == old(carts) - {u}
      ensures cartItems == Keep(old(cartItems), (c: CartItem) => c.cart != cart)
    {
      cart := carts[u];
      DeleteItemsOfCart(cart);
      RemoveEmptyCart(u);
    }

    /** The items of cart `cart` go. */
    method DeleteItemsOfCart(cart: CartId)
      requires Valid()
      modifies this`cartItems
      ensures Valid()
      ensures cartItems == Keep(old(cartItems), (c: CartItem) => c.cart != cart)
    {
      KeepNoDuplicates(cartItems, (c: CartItem) => c.cart != cart);
      ghost var before := cartItems;
      cartItems := Keep(cartItems, (c: CartItem) => c.cart != cart);
      FewerCartItemsStillReference(before, cartItems, carts.Values, recipes.Keys);
    }

    /** The cart row itself goes once no item is in it. */
    method RemoveEmptyCart(u: UserId)
      requires Valid() && u in carts
      requires forall c :: c in cartItems ==> c.cart != carts[u]
      modifies this`carts
      ensures Valid()
      ensures carts == old(carts) - {u}
    {
      ghost var cart := carts[u];
      assert forall v :: v in carts && v != u ==> carts[v] != cart;
      carts := carts - {u};
      forall c | c in cartItems
        ensures c.cart in carts.Values
      {
        var v :| v in old(carts) && old(carts)[v] == c.cart;
        assert v != u;
        assert carts[v] == c.cart;
      }
    }

    // ---------------------------------------------------------- subscriptions

    /** `Subscription.objects.get_or_create(user=..., author=...)`. */
    method GetOrCreateSubscription(s: Subscription) returns (created: bool)
      requires Valid() && s.user in users && s.author in users
      modifies this`subscriptions
      ensures Valid()
      ensures created <==> s !in old(subscriptions)
      ensures subscriptions == if created then old(subscriptions) + [s] else old(subscriptions)
    {
      created := s !in subscriptions;
      if created {
        AppendNoDuplicates(subscriptions, s);
        subscriptions := subscriptions + [s];
      }
    }

    /** `subscription.delete()`. */
    method DeleteSubscription(s: Subscription)
      requires Valid()
      modifies this`subscriptions
      ensures Valid()
      ensures subscriptions == Keep(old(subscriptions), (x: Subscription) => x != s)
    {
      KeepNoDuplicates(subscriptions, (x: Subscription) => x != s);
      subscriptions := Keep(subscriptions, (x: Subscription) => x != s);
    }
  }
}
