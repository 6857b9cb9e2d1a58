/** The recipe and user view sets: which serializer a recipe request uses, the create and
    update endpoints, and the `favorite`, `shopping_cart` and `subscribe` actions over the
    relation tables. Each endpoint returns the response the client receives, including
    the ones the exception handler builds for errors raised on the way. */
module Views {

  import opened Wrappers
  import opened Seqs
  import opened Http
  import opened Exceptions
  import opened Generics
  import opened AppModels
  import opened CartModels
  import opened UsersModels
  import opened Database
  import opened Serializers

  const AlreadyFavorite := "Рецепт уже в избранном"
  const AlreadyInCart := "Рецепт уже в корзине"
  const SelfSubscription := "Вы не можете подписаться на самого себя"
  const AlreadySubscribed := "Вы уже подписаны на этого автора"

  /** The framework's `NotAuthenticated`, raised by the permission check before the view
      body runs; token authentication supplies the `WWW-Authenticate` challenge. */
  const NotAuthenticatedDetail := "Authentication credentials were not provided."
  const NotAuthenticatedExc := Api(NotAuthenticated, 401, Str(NotAuthenticatedDetail), Some("Token"), None)

  function ErrorBody(message: string): Json {
    Dict(map["errors" := Str(message)])
  }

  const Unauthorized := Response(Dict(map["detail" := Str(NotAuthenticatedDetail)]), HTTP_401_UNAUTHORIZED, map["WWW-Authenticate" := "Token"])
  const NotFoundResponse := Response(Dict(map["detail" := Str("Not found.")]), HTTP_404_NOT_FOUND, map[])
  const OperationFailed := Response(ErrorBody(Http400DefaultDetail), HTTP_400_BAD_REQUEST, map[])
  const NoContent := Response(Null, HTTP_204_NO_CONTENT, map[])
  /** The framework's answer to an exception the handler lets through. */
  const ServerError := Response(Null, HTTP_500_INTERNAL_SERVER_ERROR, map[])

  function BadRequest(message: string): (r: Response)
    ensures r.status == HTTP_400_BAD_REQUEST && r.headers == map[]
  {
    Response(ErrorBody(message), HTTP_400_BAD_REQUEST, map[])
  }

  // ----------------------------------------------------- responses for exceptions

  /** A request without credentials to a view that needs a signed-in user. */
  method NotAuthenticatedResponse() returns (response: Response)
    ensures response == Unauthorized
  {
    var handled := CustomExceptionHandler(NotAuthenticatedExc);
    response := handled.value;
    assert response.headers == map["WWW-Authenticate" := "Token"];
  }

  /** `get_object_or_404` finding nothing raises Django's `Http404`. */
  method NotFoundResponseOf() returns (response: Response)
    ensures response == NotFoundResponse
  {
    var handled := CustomExceptionHandler(Http404);
    response := handled.value;
    assert response.headers == map[];
  }

  /** `get_object_or_400` finding nothing raises `Http400` without a detail. */
  method OperationFailedResponse() returns (response: Response)
    ensures response == OperationFailed
  {
    var handled := CustomExceptionHandler(Http400Exc(None));
    response := handled.value;
    assert response.headers == map[];
  }

  // ----------------------------------------------------------------- rendering

  /** `FavoriteRecipeSerializer` and `UserRecipeSerializer`: a recipe in short. */
  function RecipeSummary(id: RecipeId, row: RecipeRow): Json {
    Dict(map["id" := Int(id), "name" := Str(row.name), "image" := Str(row.image), "cooking_time" := Int(row.cookingTime)])
  }

  /** `UserSubscriptionSerializer` for the author just subscribed to, without the nested
      recipe list. */
  function SubscriptionSummary(id: UserId, row: UserRow, subscribed: bool, recipesCount: nat): Json {
    Dict(map["email" := Str(row.email), "id" := Int(id), "username" := Str(row.username),
             "first_name" := Str(row.firstName), "last_name" := Str(row.lastName),
             "is_subscribed" := Bool(subscribed), "recipes_count" := Int(recipesCount)])
  }

  /** The text of a field error in the 400 response of a refused create or update. */
  function FieldErrorText(e: FieldError): string {
    match e
    case Required => "This field is required."
    case Blank => "This field may not be blank."
    case DoesNotExist => "Object does not exist."
    case BelowMinimum(limit) => "Ensure this value is greater than or equal to " + FormatD(limit) + "."
    case AboveMaximum(limit) => "Ensure this value is less than or equal to " + FormatD(limit) + "."
    case NotUnique => "This field must be unique."
    case Message(text) => text
  }

  /** The detail of the `ValidationError` `is_valid` raises: one list of messages per field. */
  function ValidationBody(errors: map<string, FieldError>): (body: Json)
    ensures body.Dict? && body.entries.Keys == errors.Keys
  {
    Dict(map k | k in errors :: List([Str(FieldErrorText(errors[k]))]))
  }

  /** `RecipeSerializer` for a written recipe: its row, tag ids and portions. */
  function RecipeBody(id: RecipeId, row: RecipeRow, tags: seq<TagId>, portions: seq<Portion>, favorited: bool, inCart: bool): Json {
    Dict(map["id" := Int(id), "name" := Str(row.name), "image" := Str(row.image), "text" := Str(row.text),
             "cooking_time" := Int(row.cookingTime), "author" := Int(row.author),
             "tags" := List(seq(|tags|, k requires 0 <= k < |tags| => Int(tags[k]))),
             "ingridients" := List(seq(|portions|, k requires 0 <= k < |portions| =>
                Dict(map["id" := Int(portions[k].ingredient), "amount" := Int(portions[k].amount)]))),
             "is_favorited" := Bool(favorited), "is_in_shopping_cart" := Bool(inCart)])
  }

  /** `RecipeCreateSerializer`'s own representation, which `update` answers with. */
  function RecipeWriteBody(row: RecipeRow, tags: seq<TagId>, portions: seq<Portion>): Json {
    Dict(map["name" := Str(row.name), "image" := Str(row.image), "text" := Str(row.text),
             "cooking_time" := Int(row.cookingTime),
             "tags" := List(seq(|tags|, k requires 0 <= k < |tags| => Int(tags[k]))),
             "ingridients" := List(seq(|portions|, k requires 0 <= k < |portions| =>
                Dict(map["id" := Int(portions[k].ingredient), "amount" := Int(portions[k].amount)])))])
  }

  // ------------------------------------------------------------- RecipeViewSet

  datatype SerializerClass = RecipeSerializerClass | RecipeCreateSerializerClass

  /** `RecipeViewSet.get_serializer_class`: reads use `RecipeSerializer`, writes
      `RecipeCreateSerializer`. */
  function GetSerializerClass(m: Method): (c: SerializerClass)
    ensures c == RecipeSerializerClass <==> IsSafe(m)
  {
    if m in {GET, HEAD, OPTIONS} then RecipeSerializerClass else RecipeCreateSerializerClass
  }

  /** `RecipeViewSet.create` with `perform_create`: the default permission lets only
      signed-in users write; a body with field errors is refused with 400; otherwise the
      recipe is written from the validated data, with the requester as author, and
      returned with 201. A repeated ingredient makes the link insert raise an integrity
      error the handler lets through, after the row, its tag links and the links before
      the repeat were written. No other recipe's links change. */
  method CreateRecipe(db: Db, requester: Requester, data: RecipeData) returns (response: Response)
    requires db.Valid()
    requires requester.Account? ==> requester.id in db.users
    modifies db`recipes, db`nextId, db`recipeTags, db`recipeIngredients
    ensures db.Valid()
    ensures !requester.IsAuthenticated() ==> response == Unauthorized
    ensures response.status != HTTP_201_CREATED && response.status != HTTP_500_INTERNAL_SERVER_ERROR ==>
      && db.recipes == old(db.recipes)
      && db.recipeTags == old(db.recipeTags) && db.recipeIngredients == old(db.recipeIngredients)
    ensures requester.IsAuthenticated() ==>
      var errors := FieldErrors(data, false, old(db.ingredients).Keys, old(db.tags).Keys, old(db.recipes), None);
      && (errors != map[] ==> response == Response(ValidationBody(errors), HTTP_400_BAD_REQUEST, map[]))
      && (errors == map[] && NoDuplicates(IngredientIds(data.ingridients.value)) ==> response.status == HTTP_201_CREATED)
      && (errors == map[] && !NoDuplicates(IngredientIds(data.ingridients.value)) ==> response == ServerError)
    ensures response.status == HTTP_201_CREATED || response.status == HTTP_500_INTERNAL_SERVER_ERROR ==>
      exists r :: r !in old(db.recipes) && db.recipes == old(db.recipes)[r := RecipeRow(
          Strip(data.name.value), Strip(data.text.value), data.cookingTime.value, requester.id, data.image.value)]
        && db.recipeTags == old(db.recipeTags) + TagLinks(r, data.tags.value)
        && db.recipeIngredients == old(db.recipeIngredients) + IngredientLinks(r, InsertedPortions(data.ingridients.value))
        && TagsOf(db.recipeTags, r) == data.tags.value
        && PortionsOf(db.recipeIngredients, r) == InsertedPortions(data.ingridients.value)
        && forall q :: q != r ==>
             TagsOf(db.recipeTags, q) == TagsOf(old(db.recipeTags), q) &&
             PortionsOf(db.recipeIngredients, q) == PortionsOf(old(db.recipeIngredients), q)
  {
    if !requester.IsAuthenticated() {
      response := NotAuthenticatedResponse();
      return;
    }
    var errors := FieldErrors(data, false, db.ingredients.Keys, db.tags.Keys, db.recipes, None);
    if errors != map[] {
      return Response(ValidationBody(errors), HTTP_400_BAD_REQUEST, map[]);
    }
    NoErrorsIffCreatable(data, db.ingredients.Keys, db.tags.Keys, db.recipes);
    var valid := Validated(data);
    var ps, tags := valid.ingridients.value, valid.tags.value;
    var res, row := Create(db, requester.id, ps, tags, valid.image.value, valid.name.value, valid.text.value, valid.cookingTime.value);
    var r := row.value;
    if res.Err? {
      return ServerError;
    }
    response := Response(RecipeBody(r, db.recipes[r], tags, ps, IsFavorited(requester, r, db.favorites), IsInShoppingCart(r, db.cartItems)),
                         HTTP_201_CREATED, map[]);
  }

  /** `RecipeViewSet.update` (PUT, or PATCH with `partial`): the default permission lets
      any signed-in user change any recipe; an unknown id answers 404, a body with field
      errors 400; otherwise the serializer's `update` runs on the validated data and the
      recipe is returned. No other recipe's links change. */
  method UpdateRecipe(db: Db, requester: Requester, id: RecipeId, data: RecipeData, partial: bool) returns (response: Response)
    requires db.Valid()
    modifies db`recipes, db`recipeTags, db`recipeIngredients
    ensures db.Valid()
    ensures !requester.IsAuthenticated() ==> response == Unauthorized
    ensures requester.IsAuthenticated() && id !in old(db.recipes) ==> response == NotFoundResponse
    ensures response.status != HTTP_200_OK && response.status != HTTP_500_INTERNAL_SERVER_ERROR ==>
      && db.recipes == old(db.recipes)
      && db.recipeTags == old(db.recipeTags) && db.recipeIngredients == old(db.recipeIngredients)
    ensures forall q :: q != id ==>
      TagsOf(db.recipeTags, q) == TagsOf(old(db.recipeTags), q) &&
      PortionsOf(db.recipeIngredients, q) == PortionsOf(old(db.recipeIngredients), q)
    ensures requester.IsAuthenticated() && id in old(db.recipes) ==>
      var errors := FieldErrors(data, partial, old(db.ingredients).Keys, old(db.tags).Keys, old(db.recipes), Some(id));
      && (errors != map[] ==> response == Response(ValidationBody(errors), HTTP_400_BAD_REQUEST, map[]))
      && (errors == map[] ==>
            && TagsOf(db.recipeTags, id) == data.tags.GetOr([])
            && PortionsOf(db.recipeIngredients, id) == InsertedPortions(data.ingridients.GetOr([]))
            && (NoDuplicates(IngredientIds(data.ingridients.GetOr([]))) ==>
                  response.status == HTTP_200_OK && db.recipes == old(db.recipes)[id := Patched(old(db.recipes)[id], Validated(data))])
            && (!NoDuplicates(IngredientIds(data.ingridients.GetOr([]))) ==>
                  response == ServerError && db.recipes == old(db.recipes)))
  {
    if !requester.IsAuthenticated() {
      response := NotAuthenticatedResponse();
      return;
    }
    if id !in db.recipes {
      response := NotFoundResponseOf();
      return;
    }
    var errors := FieldErrors(data, partial, db.ingredients.Keys, db.tags.Keys, db.recipes, Some(id));
    if errors != map[] {
      return Response(ValidationBody(errors), HTTP_400_BAD_REQUEST, map[]);
    }
    var valid := Validated(data);
    ValidatedFields(data, partial, db.ingredients.Keys, db.tags.Keys, db.recipes, Some(id));
    var res := Update(db, id, valid);
    if res.Err? {
      return ServerError;
    }
    var row := db.recipes[id];
    response := Response(RecipeWriteBody(row, valid.tags.GetOr([]), InsertedPortions(valid.ingridients.GetOr([]))), HTTP_200_OK, map[]);
  }

  /** `RecipeViewSet.favorite` (POST or DELETE): needs a signed-in user and an existing
      recipe; POST adds the (user, recipe) favorite or answers 400 when it exists, DELETE
      removes it or answers 400 when it does not. */
  method Favorite(db: Db, requester: Requester, m: Method, id: RecipeId) returns (response: Response)
    requires db.Valid()
    requires requester.Account? ==> requester.id in db.users
    requires m == POST || m == DELETE
    modifies db`favorites
    ensures db.Valid()
    ensures !requester.IsAuthenticated() ==> response == Unauthorized && db.favorites == old(db.favorites)
    ensures requester.IsAuthenticated() && id !in db.recipes ==> response == NotFoundResponse && db.favorites == old(db.favorites)
    ensures requester.IsAuthenticated() && id in db.recipes ==>
      var f := FavoriteRecipe(requester.id, id);
      && (m == POST && f in old(db.favorites) ==>
            response == BadRequest(AlreadyFavorite) && db.favorites == old(db.favorites))
      && (m == POST && f !in old(db.favorites) ==>
            response == Response(RecipeSummary(id, db.recipes[id]), HTTP_200_OK, map[]) &&
            db.favorites == old(db.favorites) + [f])
      && (m == DELETE && f in old(db.favorites) ==>
            response == NoContent && db.favorites == Keep(old(db.favorites), (x: FavoriteRecipe) => x != f) &&
            f !in db.favorites)
      && (m == DELETE && f !in old(db.favorites) ==>
            response == OperationFailed && db.favorites == old(db.favorites))
    ensures requester.IsAuthenticated() && id in db.recipes ==>
      (Serializers.IsFavorited(requester, id, db.favorites) <==> m == POST)
  {
    if !requester.IsAuthenticated() {
      response := NotAuthenticatedResponse();
      return;
    }
    if id !in db.recipes {
      response := NotFoundResponseOf();
      return;
    }
    var f := FavoriteRecipe(requester.id, id);
    if m == POST {
      var created := db.GetOrCreateFavorite(f);
      if !created {
        return BadRequest(AlreadyFavorite);
      }
      return Response(RecipeSummary(id, db.recipes[id]), HTTP_200_OK, map[]);
    }
    LookupUniqueRow(db.favorites, f);
    var found := GetObjectOr400(ModelClass(db.favorites), Equals(f));
    if found.Raised? {
      response := OperationFailedResponse();
      return;
    }
    db.DeleteFavorite(found.obj);
    response := NoContent;
  }

  /** `RecipeViewSet.shopping_cart` (POST or DELETE): needs a signed-in user and an
      existing recipe; the user's cart is then got or created whatever the method, and
      POST adds the (cart, recipe) item or answers 400 when it exists, DELETE removes it
      or answers 400 when it does not. */
  method ShoppingCart(db: Db, requester: Requester, m: Method, id: RecipeId) returns (response: Response)
    requires db.Valid()
    requires requester.Account? ==> requester.id in db.users
    requires m == POST || m == DELETE
    modifies db`carts, db`nextId, db`cartItems
    ensures db.Valid()
    ensures !requester.IsAuthenticated() ==>
      response == Unauthorized && db.carts == old(db.carts) && db.cartItems == old(db.cartItems)
    ensures requester.IsAuthenticated() && id !in db.recipes ==>
      response == NotFoundResponse && db.carts == old(db.carts) && db.cartItems == old(db.cartItems)
    ensures requester.IsAuthenticated() && id in db.recipes ==>
      && requester.id in db.carts
      && (requester.id in old(db.carts) ==> db.carts == old(db.carts))
      && (requester.id !in old(db.carts) ==>
            db.carts == old(db.carts)[requester.id := db.carts[requester.id]] &&
            db.carts[requester.id] !in old(db.carts).Values)
      && var item := CartItem(db.carts[requester.id], id);
      && (m == POST && item in old(db.cartItems) ==>
            response == BadRequest(AlreadyInCart) && db.cartItems == old(db.cartItems))
      && (m == POST && item !in old(db.cartItems) ==>
            response == Response(RecipeSummary(id, db.recipes[id]), HTTP_200_OK, map[]) &&
            db.cartItems == old(db.cartItems) + [item])
      && (m == DELETE && item in old(db.cartItems) ==>
            response == NoContent && db.cartItems == Keep(old(db.cartItems), (x: CartItem) => x != item) &&
            item !in db.cartItems)
      && (m == DELETE && item !in old(db.cartItems) ==>
            response == OperationFailed && db.cartItems == old(db.cartItems))
  {
    if !requester.IsAuthenticated() {
      response := NotAuthenticatedResponse();
      return;
    }
    if id !in db.recipes {
      response := NotFoundResponseOf();
      return;
    }
    var cart, _ := db.GetOrCreateCart(requester.id);
    var item := CartItem(cart, id);
    if m == POST {
      var created := db.GetOrCreateCartItem(item);
      if !created {
        return BadRequest(AlreadyInCart);
      }
      return Response(RecipeSummary(id, db.recipes[id]), HTTP_200_OK, map[]);
    }
    LookupUniqueRow(db.cartItems, item);
    var found := GetObjectOr400(ModelClass(db.cartItems), Equals(item));
    if found.Raised? {
      response := OperationFailedResponse();
      return;
    }
    db.DeleteCartItem(found.obj);
    response := NoContent;
  }

  /** `CustomUserViewSet.subscribe` (POST or DELETE): needs a signed-in user and an
      existing author; subscribing to oneself is refused for both methods before the
      subscriptions are read; then POST adds the (user, author) subscription or answers
      400 when it exists, DELETE removes it or answers 400 when it does not. */
  method Subscribe(db: Db, requester: Requester, m: Method, id: UserId) returns (response: Response)
    requires db.Valid()
    requires requester.Account? ==> requester.id in db.users
    requires m == POST || m == DELETE
    modifies db`subscriptions
    ensures db.Valid()
    ensures !requester.IsAuthenticated() ==> response == Unauthorized && db.subscriptions == old(db.subscriptions)
    ensures requester.IsAuthenticated() && id !in db.users ==>
      response == NotFoundResponse && db.subscriptions == old(db.subscriptions)
    ensures requester.IsAuthenticated() && id in db.users && requester.id == id ==>
      response == BadRequest(SelfSubscription) && db.subscriptions == old(db.subscriptions)
    ensures requester.IsAuthenticated() && id in db.users && requester.id != id ==>
      var s := Subscription(requester.id, id);
      && (m == POST && s in old(db.subscriptions) ==>
            response == BadRequest(AlreadySubscribed) && db.subscriptions == old(db.subscriptions))
      && (m == POST && s !in old(db.subscriptions) ==>
            response == Response(SubscriptionSummary(id, db.users[id], true, RecipesCount(id, db.recipes)), HTTP_200_OK, map[]) &&
            db.subscriptions == old(db.subscriptions) + [s])
      && (m == DELETE && s in old(db.subscriptions) ==>
            response == NoContent && db.subscriptions == Keep(old(db.subscriptions), (x: Subscription) => x != s) &&
            s !in db.subscriptions)
      && (m == DELETE && s !in old(db.subscriptions) ==>
            response == OperationFailed && db.subscriptions == old(db.subscriptions))
  {
    if !requester.IsAuthenticated() {
      response := NotAuthenticatedResponse();
      return;
    }
    if id !in db.users {
      response := NotFoundResponseOf();
      return;
    }
    if requester.id == id {
      return BadRequest(SelfSubscription);
    }
    var s := Subscription(requester.id, id);
    if m == POST {
      var created := db.GetOrCreateSubscription(s);
      if !created {
        return BadRequest(AlreadySubscribed);
      }
      var subscribed := SubscriptionIsSubscribed(requester.id, id, db.subscriptions);
      return Response(SubscriptionSummary(id, db.users[id], subscribed, RecipesCount(id, db.recipes)), HTTP_200_OK, map[]);
    }
    LookupUniqueRow(db.subscriptions, s);
    var found := GetObjectOr400(ModelClass(db.subscriptions), Equals(s));
    if found.Raised? {
      response := OperationFailedResponse();
      return;
    }
    db.DeleteSubscription(found.obj);
    response := NoContent;
  }

  // --------------------------------------------------------- CustomUserViewSet

  /** `User.objects.filter(subscription__user=user)`: the authors `user` follows, each once,
      taken through the reverse relation of the subscription's `author` key. */
  function FollowedAuthors(user: UserId, subscriptions: seq<Subscription>): (authors: set<UserId>)
    ensures forall a :: a in authors <==> Subscription(user, a) in subscriptions
  {
    set s | s in subscriptions && s.user == user :: s.author
  }

  /** `CustomUserViewSet.subscriptions` (GET): a signed-in user's followed authors; the
      anonymous caller gets 401 before the queryset is built. */
  function Subscriptions(requester: Requester, subscriptions: seq<Subscription>): (r: Result<set<UserId>, Response>)
    ensures r.Err? <==> !requester.IsAuthenticated()
    ensures r.Err? ==> r.error == Unauthorized
    ensures r.Ok? ==> r.value == FollowedAuthors(requester.id, subscriptions)
  {
    if !requester.IsAuthenticated() then Err(Unauthorized)
    else Ok(FollowedAuthors(requester.id, subscriptions))
  }

  /** Every author in a user's subscription list is rendered as subscribed, and only
      those: `is_subscribed` and the list agree. */
  lemma SubscriptionsAreSubscribed(user: UserId, subscriptions: seq<Subscription>, author: UserId)
    ensures author in FollowedAuthors(user, subscriptions) <==> SubscriptionIsSubscribed(user, author, subscriptions)
  {
  }

  /** A successful subscribe puts the author in the list and a successful unsubscribe takes
      it out, whatever else the list holds. */
  lemma SubscribeThenListed(user: UserId, author: UserId, subscriptions: seq<Subscription>)
    ensures author in FollowedAuthors(user, subscriptions + [Subscription(user, author)])
    ensures author !in FollowedAuthors(user, Keep(subscriptions, (x: Subscription) => x != Subscription(user, author)))
    ensures forall a :: a != author ==>
      (a in FollowedAuthors(user, subscriptions + [Subscription(user, author)]) <==> a in FollowedAuthors(user, subscriptions))
    ensures forall a :: a != author ==>
      (a in FollowedAuthors(user, Keep(subscriptions, (x: Subscription) => x != Subscription(user, author))) <==>
       a in FollowedAuthors(user, subscriptions))
  {
  }
}
