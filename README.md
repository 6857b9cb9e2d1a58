# Foodgram backend core in Dafny

Foodgram is a recipe-sharing service. Users publish recipes, each with tags and
a list of ingredients with amounts. Other users mark recipes as favorites, put
them in a shopping cart and subscribe to authors. This project models the
parts of the Django/REST-framework backend whose behaviour follows exact rules,
and proves properties of that model.

**Relation store (`database.dfy`, class `Database.Db`).** Every table is a field
of one object:

- users, tags, ingredients and recipes are maps from primary key to row;
- the link, favorite, cart item and subscription tables are sequences in row
  order;
- carts are a map from user to cart id.

`Db.Valid()` is the set of constraints the database keeps: unique columns,
foreign keys pointing at existing rows, one cart per user, unique pairs and
non-negative amounts. Every ORM operation the views and serializers perform is a
method. Each one keeps `Valid()` and states its whole new state. A unique
violation fails with `IntegrityError` and changes nothing. A `PROTECT` reference
fails with `ProtectedError`. `CASCADE` deletes take the referencing rows with
them.

**Views (`views.dfy`).** This file models:

- the `favorite`, `shopping_cart` and `subscribe` actions and the
  `subscriptions` list;
- recipe create and update through `RecipeCreateSerializer`;
- `get_serializer_class`.

Each endpoint returns the response the client receives. Error responses are built
by running `custom_exception_handler` on the exception the framework or the view
raises:

- `NotAuthenticated` gives 401 with the `Token` challenge;
- `Http404` gives 404;
- `Http400` gives 400 `{"errors": "Ошибка операции."}`;
- an `IntegrityError`, which the handler does not catch, gives 500.

**Serializer (`serializers.py` → `serializers.dfy`).** This file models:

- field validation, including the custom empty-list messages, the whitespace
  trimming of the name and text fields and the 1 to 32767 range of the cooking time;
- `create` and `update`, which write the row and its links one by one, as loops;
- the read-only `is_favorited`, `is_in_shopping_cart`, `is_subscribed` and
  `recipes_count` fields.

**Entities and helpers.**

- `Tag.save` (a class with the fields it updates in place) and the colour
  validator;
- `CustomUserManager.create_user` and `create_superuser`, with the conversion
  `save` applies to the boolean flags passed in `extra_fields`;
- `get_object_or_400`, the permission class, the query-string filters, the
  exception handler;
- the `not_me_in_username_validator`, over a small model of Python's `re.search`
  (`regex.dfy`).

Where the code disagrees with what its own help texts, messages and migrations
describe, the model follows the code:

- **No duplicate check.** Neither tags nor ingredients are checked for
  duplicates. A repeated tag makes two identical link rows. A repeated
  ingredient breaks the `unique_ingridient_for_recipe` constraint on its
  second link, and the request ends in a 500.
- **Non-atomic writes.** Requests are not atomic (no `ATOMIC_REQUESTS`, no
  `atomic()`). A create that fails this way keeps:
  - the recipe row;
  - all its tag links;
  - the ingredient links before the repeat.

  An update that fails this way keeps:
  - the deleted links deleted;
  - the new links up to the repeat;
  - the row unsaved.
- **Any user may update any recipe.** The recipe view set uses the default
  `IsAuthenticatedOrReadOnly` permission, so any signed-in user may update any
  recipe. `update` ignores the `author` that `perform_update` passes.
- **Not per-user cart flag.** `is_in_shopping_cart` is true when the recipe is
  in anyone's cart.
- **One name for ingredient amounts.** The model and the serializer name the
  ingredient amount differently (`quantity` and `amount`). It is called
  `amount` here.

## Model

| member | source | states |
|---|---|---|
| Views.GetSerializerClass | backend/api/views.py:42-45 | `RecipeSerializer` exactly for the safe methods, `RecipeCreateSerializer` otherwise |
| Views.CreateRecipe | backend/api/views.py:47-59 | anonymous gets 401. Field errors give 400 with one entry per refused field and nothing written. Otherwise the recipe is written with the requester as author and the name and text stripped, and its tags and portions are those sent: 201, or 500 with the partial write when an ingredient repeats. Every other recipe keeps its tags and portions |
| Views.UpdateRecipe | backend/api/views.py:38-51 | 401 for anonymous, 404 for an unknown id, 400 for field errors, each writing nothing. Otherwise the recipe's tags and portions become exactly those sent. The row is patched from the validated (stripped) data with 200, or kept with 500 when an ingredient repeats. Every other recipe keeps its tags and portions |
| Views.Favorite | backend/api/views.py:62-85 | 401, then 404 for an unknown recipe. POST adds the (user, recipe) pair, or answers 400 "Рецепт уже в избранном" with the table unchanged. DELETE removes exactly that pair with 204, or answers 400 with nothing changed. Afterwards the recipe is favorited iff the method was POST |
| Views.ShoppingCart | backend/api/views.py:87-112 | 401, then 404 before any cart is created. Otherwise the user has a cart afterwards, new and fresh only if there was none. POST adds the (cart, recipe) item, or answers 400 "Рецепт уже в корзине" with the items unchanged. DELETE removes exactly that item with 204, or answers 400 with nothing changed |
| Views.Subscribe | backend/api/views.py:128-161 | 401, then 404 for an unknown author. A self-subscription answers 400 for both methods with the table unchanged. POST adds the (user, author) pair and answers with the author, subscribed, and their recipe count, or answers 400 "Вы уже подписаны на этого автора". DELETE removes exactly that pair with 204, or answers 400 |
| Views.Subscriptions | backend/api/views.py:116-126 | anonymous gets 401; a signed-in user gets exactly the authors they follow |
| Views.FollowedAuthors | backend/api/views.py:121 | an author is selected iff a (user, author) subscription exists |
| Views.SubscriptionsAreSubscribed | backend/api/serializers.py:229-231 | an author is in a user's subscription list iff it is rendered with `is_subscribed` true |
| Views.SubscribeThenListed | backend/api/views.py:142-161 | a subscribe puts the author in the list, an unsubscribe takes it out, and in both cases no other author changes |
| Views.NotAuthenticatedResponse | backend/core/exceptions.py:40-53 | the handler turns `NotAuthenticated` into 401 `{"detail": ...}` with `WWW-Authenticate: Token` |
| Views.NotFoundResponseOf | backend/core/exceptions.py:21-22 | `Http404` becomes 404 `{"detail": "Not found."}` |
| Views.OperationFailedResponse | backend/core/exceptions.py:25-39 | a detail-less `Http400` becomes 400 `{"errors": "Ошибка операции."}` |
| Views.ValidationBody | backend/core/exceptions.py:47-48 | the 400 body has exactly one key per refused field |
| Serializers.ValidateIngridients | backend/api/serializers.py:195-198 | accepted iff non-empty and then unchanged; the empty list gets "Укажите ингридиенты" |
| Serializers.ValidateTags | backend/api/serializers.py:200-203 | accepted iff non-empty and then unchanged; the empty list gets "Укажите теги" |
| Serializers.IngridientsError | backend/api/serializers.py:146-148 | no error iff omitted in a partial update, or non-empty with every id known and every amount from 0 to 32767, the range the nested field takes from the validator and the column type; `[]` gets the custom message, and an amount over 32767 gets the maximum error |
| Serializers.TagsError | backend/api/serializers.py:149 | no error iff omitted in a partial update, or non-empty with every id known; `[]` gets the custom message |
| Serializers.Strip | backend/app/models.py:89-99 | the text fields' trimming: empty iff the value is all whitespace, otherwise the value without leading and trailing whitespace, starting and ending with a non-whitespace character |
| Serializers.StripSurrounded | backend/app/models.py:89-99 | whitespace of any kind around a text that neither starts nor ends with whitespace is removed exactly |
| Serializers.StripIdempotent | backend/app/models.py:89-99 | stripping a stripped value changes nothing |
| Serializers.ImageError | backend/api/serializers.py:150 | no error iff omitted in a partial update or not empty |
| Serializers.TextError | backend/app/models.py:97-99 | no error iff omitted in a partial update or the text has a non-whitespace character |
| Serializers.NameError | backend/app/models.py:89-96 | no error iff omitted in a partial update, or it has a non-whitespace character and its stripped value is no other recipe's name; a padded copy of an existing name is not unique |
| Serializers.CookingTimeError | backend/app/models.py:100-109 | no error iff omitted in a partial update or from 1 to 32767, the range the serializer field takes from the validator and the column type |
| Serializers.Validated | backend/api/serializers.py:145-161 | the validated data: name and text stripped, every other field as sent |
| Serializers.ValidatedFields | backend/api/serializers.py:145-161 | after validation without errors, the name and text are stripped and not empty, the name belongs to no other recipe, the cooking time and every amount are in range, and tags and ingredients exist |
| Serializers.FieldErrors | backend/api/serializers.py:145-161 | one key per field exactly when that field's check refuses it, with the custom messages for empty lists |
| Serializers.NoErrorsIffCreatable | backend/api/serializers.py:145-161 | a full body has no field errors iff every key is present, the lists are non-empty and known, name and text have a non-whitespace character, the stripped name is new, every amount is from 0 to 32767 and the cooking time is from 1 to 32767 |
| Serializers.InsertedPortions | backend/app/models.py:177-183 | the entries before the first repeated ingredient: all of them iff no ingredient repeats, and never two links for one ingredient |
| Serializers.InsertionStops | backend/app/models.py:177-183 | insertion stops exactly at the first entry whose ingredient occurred before |
| Serializers.InsertTagLinks | backend/api/serializers.py:167-169 | appends one link per tag, in input order, duplicates included |
| Serializers.InsertEntry | backend/api/serializers.py:170-172 | fetching the ingredient again by name finds the same one; its link is added iff the pair is not linked yet |
| Serializers.InsertIngredientLinks | backend/api/serializers.py:170-172 | appends one link per entry, carrying its amount, up to the first repeat; succeeds iff no ingredient repeats |
| Serializers.Create | backend/api/serializers.py:163-173 | the row is written iff its name is new. The recipe's tags are then exactly those given, in order, and its portions are the entries up to the first repeat; other recipes keep theirs. It succeeds iff no ingredient repeats, and a failure leaves what was written |
| Serializers.AppendedLinks | backend/api/serializers.py:167-172 | appending a recipe's links adds exactly its tags and portions and leaves every other recipe's |
| Serializers.Patched | backend/api/serializers.py:178-181 | each of image, name, text and cooking time is replaced when sent and kept otherwise; the author is kept |
| Serializers.ReplacedLinks | backend/api/serializers.py:176-191 | after deleting a recipe's links and appending new ones, it has exactly the new ones and other recipes keep theirs |
| Serializers.Update | backend/api/serializers.py:175-193 | the recipe's tags and portions become exactly those sent, or none for an omitted key, and other recipes are unaffected. The patched row is saved iff the links went in and the name is free |
| Serializers.IsFavorited | backend/api/serializers.py:133-139 | false for anonymous, else true iff a (user, recipe) favorite exists |
| Serializers.IsInShoppingCart | backend/api/serializers.py:141-142 | true iff any cart, of any user, holds the recipe |
| Serializers.UserIsSubscribed | backend/api/serializers.py:84-85 | always false |
| Serializers.UserMeIsSubscribed | backend/api/serializers.py:31-37 | false for anonymous, else true iff a (user, author) subscription exists |
| Serializers.SubscriptionIsSubscribed | backend/api/serializers.py:229-231 | true iff a (user, author) subscription exists |
| Serializers.AuthoredBy | backend/api/serializers.py:233-234 | exactly the recipes whose author is the user |
| Serializers.RecipesCountAfterCreate | backend/api/serializers.py:233-234 | writing a recipe adds one to its author's count and leaves other counts |
| Serializers.RecipesCountAfterDelete | backend/api/serializers.py:233-234 | deleting a recipe takes one from its author's count and leaves other counts |
| Database.Db.CreateUser | backend/users/models.py:56-87 | inserts the row under a fresh key iff its username and email are both unused, else `IntegrityError` with no change |
| Database.Db.SaveTag | backend/app/models.py:10-43 | insert or update succeeds iff no other tag has the name or the slug |
| Database.Db.CreateIngredient | backend/app/models.py:61-75 | inserts under a fresh key iff the name is unused |
| Database.Db.DeleteTag | backend/app/models.py:158-160 | refused with `ProtectedError` iff a recipe links to the tag |
| Database.Db.DeleteIngredient | backend/app/models.py:163-165 | refused with `ProtectedError` iff a recipe uses the ingredient |
| Database.Db.CreateRecipe | backend/app/models.py:88-110 | inserts iff the cooking time fits the unsigned column and the name is unused; the new recipe has no links |
| Database.Db.SaveRecipe | backend/api/serializers.py:192 | updates iff the cooking time fits and no other recipe has the name |
| Database.Db.AddRecipeTag | backend/app/models.py:158-160 | always appends the link; the table has no unique constraint |
| Database.Db.AddRecipeIngredient | backend/app/models.py:163-183 | appends the link iff the (ingredient, recipe) pair is not linked yet |
| Database.Db.DeleteRecipeTags | backend/api/serializers.py:176 | removes exactly the recipe's tag links |
| Database.Db.DeleteRecipeIngredients | backend/api/serializers.py:177 | removes exactly the recipe's ingredient links |
| Database.Db.DeleteRecipe | backend/app/models.py:158-204 | the recipe goes with its links and favorites, and with the cart items that reference it |
| Database.Db.DeleteFavoritesOf | backend/app/models.py:199-204 | removes exactly the recipe's favorites |
| Database.Db.DeleteCartItemsOf | backend/cart/models.py:33-39 | removes exactly the cart items that hold the recipe |
| Database.Db.GetOrCreateFavorite | backend/api/views.py:71-73 | created iff absent; the pair is appended only then |
| Database.Db.DeleteFavorite | backend/api/views.py:83-84 | removes exactly that favorite |
| Database.Db.GetOrCreateCart | backend/cart/models.py:7-15 | created iff the user had no cart; a new cart id belongs to no other user and the user has exactly one cart afterwards |
| Database.Db.GetOrCreateCartItem | backend/api/views.py:97-99 | created iff absent; the item is appended only then |
| Database.Db.DeleteCartItem | backend/api/views.py:110-111 | removes exactly that item |
| Database.Db.DeleteCart | backend/cart/models.py:26-32 | the user's cart goes with all its items |
| Database.Db.GetOrCreateSubscription | backend/api/views.py:143-145 | created iff absent; the pair is appended only then |
| Database.Db.DeleteSubscription | backend/api/views.py:157-160 | removes exactly that subscription |
| TagModel.Tag.Save | backend/app/models.py:49-53 | the colour is stored upper-cased. An empty slug becomes `slugify(name)` and any other slug is kept. The save succeeds iff name and slug are unique among the other tags, and the key is kept on an update |
| AppModels.ColourValidIff | backend/app/models.py:18-28 | a colour is valid iff it is "#" followed by exactly six hexadecimal digits |
| AppModels.NoColourRejected | backend/tests/tests_app.py:19-30 | "NOCOLOR" is not a valid colour |
| AppModels.UpperKeepsColourValid | backend/app/models.py:49-50 | upper-casing a valid colour keeps it valid and leaves no lower-case letter |
| AppModels.UpperIdempotent | backend/app/models.py:50 | upper-casing twice is upper-casing once |
| AppModels.NameIdentifiesIngredient | backend/app/models.py:67 | with unique names, the ingredient fetched by name is the one the name came from |
| AppModels.AppendLinkKeepsOne | backend/app/models.py:177-183 | appending a link for an unlinked pair keeps one link per pair |
| AppModels.KeepKeepsOneLink | backend/app/models.py:177-183 | deleting links keeps one link per pair |
| AppModels.HasLinkAfterInsert | backend/app/models.py:177-183 | with no old links, a pair is linked iff its ingredient is among the inserted entries |
| AppModels.TagsOfTagLinks | backend/api/serializers.py:167-169 | the inserted links give back exactly the supplied tags |
| AppModels.PortionsOfIngredientLinks | backend/api/serializers.py:170-172 | the inserted links give back exactly the supplied entries with their amounts |
| AppModels.TagsOfWithout | backend/api/serializers.py:176 | deleting a recipe's tag links leaves it none and leaves the others' links |
| AppModels.PortionsOfWithout | backend/api/serializers.py:177 | deleting a recipe's ingredient links leaves it none and leaves the others' links |
| UsersModels.RequiredFieldsError | backend/users/models.py:14-23 | no error iff all five fields are non-empty; otherwise the message of the first empty one, in the order email, password, first name, last name, username |
| UsersModels.SetDefault | backend/users/models.py:40-42 | adds the key only when absent and keeps every existing entry |
| UsersModels.SuperuserFlagsError | backend/users/models.py:43-46 | no error iff both flags are present and the boolean `True` |
| UsersModels.PrepareBoolean | backend/users/models.py:24-34 | what `save` makes of a flag value: true exactly for `True`, 1, "t", "True", "1"; false exactly for `False`, 0, "f", "False", "0"; NULL exactly for `None`; anything else is refused |
| UsersModels.PrepareBooleanRoundTrip | backend/users/models.py:24-34 | a stored flag, or the string of a boolean, prepares back to the same value |
| UserManager.NewUser | backend/users/models.py:24-34 | the row `save` writes has the normalised email, the hashed password, the given names and the converted flags or their defaults; the first refused flag in field order raises `ValidationError`, and a `None` flag fails the NOT NULL column |
| UserManager.CreateUser | backend/users/models.py:11-35 | a missing field raises its `ValueError`, a flag `save` cannot store raises its error, each with nothing written. Otherwise exactly one user with the given fields is added iff username and email are unused |
| UserManager.CreateSuperuser | backend/users/models.py:37-49 | an explicit non-`True` `is_staff` or `is_superuser` is refused, in that order. The required-field checks of `create_user` follow, then the `is_active` conversion. Past those, it succeeds iff the username and normalised email are unused, and fails otherwise with `IntegrityError`. A created superuser is staff and superuser, and active unless `is_active` converts to false |
| Generics.GetQueryset | backend/core/generics.py:6-9 | a model class becomes its `all()` query set; anything else is returned as is |
| Generics.GetObjectOr400 | backend/core/generics.py:12-31 | a value without `get` raises `ValueError` naming it. Exactly one match returns it, no match raises `Http400`, and several matches or bad arguments raise their own error |
| Generics.OnlyDoesNotExistIsConverted | backend/core/generics.py:26-31 | the result is `Http400` iff the lookup was valid and matched nothing |
| Generics.LookupUniqueRow | backend/core/generics.py:24-31 | in a table of unique rows, looking a row up finds it when present and raises `Http400` otherwise |
| Permissions.HasPermission | backend/core/permissions.py:5-8 | safe methods always pass; others pass iff a user is present and authenticated |
| Permissions.HasObjectPermission | backend/core/permissions.py:10-15 | safe methods always pass; others pass iff the user is the object's author, with no authentication check |
| Permissions.ObjectPermissionImpliesPermission | backend/core/permissions.py:4-15 | object permission implies view permission |
| Permissions.AnonymousOnlyReads | backend/core/permissions.py:4-15 | the anonymous user or no user passes both checks iff the method is safe |
| Filters.IfUserIsAnonymous | backend/core/filters.py:9-15 | anonymous gets the empty query set, anyone else the wrapped filter's result |
| Filters.NameSearch | backend/core/filters.py:25-28 | an empty value keeps everything; otherwise exactly the matching names are kept, as a sub-collection |
| Filters.FavoritedBy | backend/core/filters.py:49 | keeps exactly the recipes the user favorited |
| Filters.InCartOf | backend/core/filters.py:55 | keeps exactly the recipes in the user's own cart |
| Filters.GetIsFavorited | backend/core/filters.py:46-50 | empty for anonymous, unchanged for 0, else exactly the user's favorites, always a sub-collection |
| Filters.GetIsInShoppingCart | backend/core/filters.py:52-56 | empty for anonymous, unchanged for 0, else exactly the recipes in the user's cart, always a sub-collection |
| Filters.FavoritedByIdempotent | backend/core/filters.py:49 | filtering by favorites twice is filtering once |
| Exceptions.Http400Exc | backend/core/exceptions.py:9-11 | status 400, detail as given or "Ошибка операции." |
| Exceptions.Converted | backend/core/exceptions.py:21-24 | `Http404` becomes `NotFound`, Django's `PermissionDenied` the framework's, others stay |
| Exceptions.CustomExceptionHandler | backend/core/exceptions.py:20-53 | no response iff not an API exception (after conversion), and the status is always the exception's own. `WWW-Authenticate` is set iff `auth_header` is truthy, and `Retry-After` iff `wait` is. A scalar detail is wrapped under "errors" for `Http400` and under "detail" otherwise, and a list or dict passes through |
| Exceptions.DecimalRoundTrip | backend/core/exceptions.py:32 | the `%d` digits of a wait time read back as the same number |
| Validators.NotMeInUsernameValidator | backend/core/validators.py:4-7 | as written; every refusal carries the validator's message |
| Validators.NotMeAcceptsOnlyMe | backend/core/validators.py:4-7 | as written, a value is accepted iff it is me/Me/mE/ME, optionally followed by one newline |
| Validators.NotMeExamples | backend/core/validators.py:4-7 | accepts "me", "ME" and "me\n"; rejects "meme", "name", an ordinary username and "" |
| Validators.MePatternFound | backend/core/validators.py:5 | the anchored pattern is found exactly in a spelling of "me", with Python's `$` allowing a final newline |
| Validators.NotMeInUsernameValidatorIntended | backend/core/validators.py:4-7 | the validator with `inverse_match`; every refusal carries the message |
| Validators.NotMeIntendedRejectsOnlyMe | backend/core/validators.py:4-7 | the intended validator rejects exactly the spellings of "me" |

## Left out

- Shopping-list aggregation and download: no endpoint for it exists in the views or the URL configuration.
- `core/management/commands/updatedatabase.py`: CSV loading, which is file I/O.
- `set_rollback` in the exception handler. It touches database transaction state, and `ATOMIC_REQUESTS` is not set, so it never acts.
- Races between concurrent `get_or_create` calls: every operation is modelled as sequential.
- The `__str__` methods: they are `textwrap` formatting.
- Settings, URL routing, admin classes, mixins and migrations. Pagination (page size 6) is also left out: `Views.Subscriptions` returns the whole set of authors, unordered and unpaginated.
- `slugify`, `normalize_email` and password hashing are opaque functions passed as parameters. The name regex of `name_search` is an opaque predicate.
- Base64 image decoding: an image is its stored file name.
- AppModels.Upper: upper-cases ASCII letters only; `str.upper` on other letters is not modelled.
- Views.CreateRecipe, Views.UpdateRecipe: framework texts and structure are simplified:
  - the framework's own validation messages are reduced to the kinds of `Serializers.FieldError`;
  - nested per-entry ingredient errors are flattened to one error for the list;
  - only the first error of a field is reported.
- Views.CreateRecipe, Views.UpdateRecipe: the response bodies render tags and author as ids and omit ingredient names and units.
- Views.Subscribe: the nested `recipes` list of the subscription body is omitted; the count is kept.
- Serializers.NameError, Serializers.TextError: the `max_length` limits on names and the framework's refusal of NUL characters in text fields are not checked.
- Database.Db.CreateRecipe, Database.Db.SaveRecipe, Database.Db.AddRecipeIngredient: the `PositiveSmallIntegerField` columns (cooking time, ingredient amount) are modelled as "not negative"; their 32767 upper bound is enforced only by the serializer (`Serializers.CookingTimeError`, `Serializers.IngridientsError`).
- Requests with other methods to the action routes: the framework answers them with 405 or OPTIONS before any view code runs.
- UserManager.CreateUser: only `is_staff`, `is_superuser` and `is_active` are read from `extra_fields`; other model fields passed there are dropped.
- UsersModels.PrepareBoolean: values passed in `extra_fields` are booleans, integers, strings or `None`; floats and other Python types are not modelled.
- User and cart deletion cascades: only the cart's cascade to its items is modelled (`Database.Db.DeleteCart`).

## Findings

| source | as written | input that shows it | evidently intended | confidence | as-written member | corrected member |
|---|---|---|---|---|---|---|
| backend/core/validators.py:4-7 | `RegexValidator(r"^[Mm][Ee]$")` without `inverse_match` rejects every value the pattern is not found in | "test_username" is rejected and "me" is accepted | reject exactly the spellings of "me", as the message, the field's help text and the migration's pattern `^(?!me$)^[\w.@+-]+$` say | not executed | Validators.NotMeAcceptsOnlyMe | Validators.NotMeIntendedRejectsOnlyMe |
