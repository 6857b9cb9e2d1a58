/** `RecipeCreateSerializer`: field validation, and the `create` and `update` that write a
    recipe row and its tag and ingredient links one by one, outside any transaction; plus
    the read-only fields of the recipe and user serializers. */
module Serializers {

  import opened Wrappers
  import opened Seqs
  import opened Http
  import opened AppModels
  import opened CartModels
  import opened UsersModels
  import opened Database

  const IngredientsRequired := "Укажите ингридиенты"
  const TagsRequired := "Укажите теги"

  /** `validate_ingridients`. */
  function ValidateIngridients(value: seq<Portion>): (r: Result<seq<Portion>, string>)
    ensures r.Ok? <==> |value| > 0
    ensures r.Ok? ==> r.value == value
    ensures r.Err? ==> r.error == IngredientsRequired
  {
    if |value| == 0 then Err(IngredientsRequired) else Ok(value)
  }

  /** `validate_tags`. */
  function ValidateTags(value: seq<TagId>): (r: Result<seq<TagId>, string>)
    ensures r.Ok? <==> |value| > 0
    ensures r.Ok? ==> r.value == value
    ensures r.Err? ==> r.error == TagsRequired
  {
    if |value| == 0 then Err(TagsRequired) else Ok(value)
  }

  // ------------------------------------------------------------ CharField

  /** `str.isspace`: the characters Python's `str.strip()` removes. */
  predicate IsSpace(c: char) {
    || '\t' <= c <= '\r' || '\U{1C}' <= c <= '\U{1F}' || c == ' ' || c == '\U{85}' || c == '\U{A0}'
    || c == '\U{1680}' || '\U{2000}' <= c <= '\U{200A}' || c == '\U{2028}' || c == '\U{2029}'
    || c == '\U{202F}' || c == '\U{205F}' || c == '\U{3000}'
  }

  /** The index of the first character of `s` that is not whitespace, or `|s|`. */
  function StartOfText(s: string): (i: nat)
    ensures i <= |s| && (i < |s| ==> !IsSpace(s[i]))
    ensures forall k :: 0 <= k < i ==> IsSpace(s[k])
  {
    if s == [] || !IsSpace(s[0]) then 0 else 1 + StartOfText(s[1..])
  }

  /** One past the index of the last character of `s` that is not whitespace, or 0. */
  function EndOfText(s: string): (j: nat)
    ensures j <= |s| && (0 < j ==> !IsSpace(s[j - 1]))
    ensures forall k :: j <= k < |s| ==> IsSpace(s[k])
  {
    if s == [] || !IsSpace(s[|s| - 1]) then |s| else EndOfText(s[..|s| - 1])
  }

  /** `str.strip()`: `s` without its leading and trailing whitespace. */
  function Strip(s: string): (r: string)
    ensures r == [] <==> forall k :: 0 <= k < |s| ==> IsSpace(s[k])
    ensures r != [] ==> !IsSpace(r[0]) && !IsSpace(r[|r| - 1])
    ensures r != [] ==> r == s[StartOfText(s)..EndOfText(s)]
  {
    var i, j := StartOfText(s), EndOfText(s);
    if i < j then s[i..j] else []
  }

  /** Stripping whitespace around a text that neither starts nor ends with whitespace
      gives back that text, whatever the whitespace was. */
  lemma StripSurrounded(before: string, text: string, after: string)
    requires forall k :: 0 <= k < |before| ==> IsSpace(before[k])
    requires forall k :: 0 <= k < |after| ==> IsSpace(after[k])
    requires text == [] || (!IsSpace(text[0]) && !IsSpace(text[|text| - 1]))
    ensures Strip(before + text + after) == text
  {
    var s := before + text + after;
    if text == [] {
      forall k | 0 <= k < |s|
        ensures IsSpace(s[k])
      {
        if k < |before| { assert s[k] == before[k]; } else { assert s[k] == after[k - |before|]; }
      }
    } else {
      var i, j := StartOfText(s), EndOfText(s);
      assert s[|before|] == text[0];
      assert s[|before| + |text| - 1] == text[|text| - 1];
      assert forall k :: 0 <= k < |before| ==> s[k] == before[k];
      assert forall k :: |before| + |text| <= k < |s| ==> s[k] == after[k - |before| - |text|];
      assert s[i..j] == text;
    }
  }

  /** Stripping twice is stripping once: a stored name or text is already stripped. */
  lemma StripIdempotent(s: string)
    ensures Strip(Strip(s)) == Strip(s)
  {
    var r := Strip(s);
    assert [] + r + [] == r;
    StripSurrounded([], r, []);
  }

  /** Why a field of the request body was refused: the framework's own checks (a missing
      required field, a blank string, an id with no row, a number outside the field's
      range, a name already used) or a message of the serializer's own. */
  datatype FieldError =
    | Required | Blank | DoesNotExist | BelowMinimum(limit: int) | AboveMaximum(limit: int)
    | NotUnique | Message(text: string)

  /** The request body of a recipe create or update; `None` is a key that was not sent.
      Ingredient entries are (id, amount) pairs. */
  datatype RecipeData = RecipeData(
    ingridients: Option<seq<Portion>>, tags: Option<seq<TagId>>, image: Option<string>,
    name: Option<string>, text: Option<string>, cookingTime: Option<int>)

  /** The error of the nested ingredient list, if any. */
  function IngridientsError(value: Option<seq<Portion>>, partial: bool, ingredients: set<IngredientId>): (e: Option<FieldError>)
    ensures e.None? <==> ((value.None? && partial) ||
      (value.Some? && |value.value| > 0 &&
       forall p :: p in value.value ==> p.ingredient in ingredients && MinAmount <= p.amount <= MaxSmallInteger))
    ensures value == Some([]) ==> e == Some(Message(IngredientsRequired))
    ensures value.Some? && (forall p :: p in value.value ==> p.ingredient in ingredients && p.amount >= MinAmount) &&
            (exists p :: p in value.value && p.amount > MaxSmallInteger) ==>
      e == Some(AboveMaximum(MaxSmallInteger))
  {
    match value
    case None => if partial then None else Some(Required)
    case Some(ps) =>
      if exists p :: p in ps && p.ingredient !in ingredients then Some(DoesNotExist)
      else if exists p :: p in ps && p.amount < MinAmount then Some(BelowMinimum(MinAmount))
      else if exists p :: p in ps && p.amount > MaxSmallInteger then Some(AboveMaximum(MaxSmallInteger))
      else match ValidateIngridients(ps)
        case Err(message) => Some(Message(message))
        case Ok(_) => None
  }

  /** The error of the tag id list, if any. */
  function TagsError(value: Option<seq<TagId>>, partial: bool, tags: set<TagId>): (e: Option<FieldError>)
    ensures e.None? <==> ((value.None? && partial) ||
      (value.Some? && |value.value| > 0 && forall t :: t in value.value ==> t in tags))
    ensures value == Some([]) ==> e == Some(Message(TagsRequired))
  {
    match value
    case None => if partial then None else Some(Required)
    case Some(ts) =>
      if exists t :: t in ts && t !in tags then Some(DoesNotExist)
      else match ValidateTags(ts)
        case Err(message) => Some(Message(message))
        case Ok(_) => None
  }

  /** The error of the image, which must be sent and not be empty. */
  function ImageError(value: Option<string>, partial: bool): (e: Option<FieldError>)
    ensures e.None? <==> ((value.None? && partial) || (value.Some? && value.value != ""))
  {
    match value
    case None => if partial then None else Some(Required)
    case Some(s) => if s == "" then Some(Blank) else None
  }

  /** The error of a required `CharField` that trims whitespace: a value that is empty
      once stripped is blank. */
  function TextError(value: Option<string>, partial: bool): (e: Option<FieldError>)
    ensures e.None? <==> ((value.None? && partial) ||
      (value.Some? && exists k :: 0 <= k < |value.value| && !IsSpace(value.value[k])))
  {
    match value
    case None => if partial then None else Some(Required)
    case Some(s) => if Strip(s) == "" then Some(Blank) else None
  }

  /** The error of the recipe name: a trimmed text whose stripped value is also unique
      among the other recipes. */
  function NameError(value: Option<string>, partial: bool, recipes: map<RecipeId, RecipeRow>, instance: Option<RecipeId>)
    : (e: Option<FieldError>)
    ensures e.None? <==> ((value.None? && partial) ||
      (value.Some? && TextError(value, partial).None? &&
       forall r :: r in recipes && Some(r) != instance ==> recipes[r].name != Strip(value.value)))
    ensures value.Some? && Strip(value.value) != "" &&
            (exists r :: r in recipes && Some(r) != instance && recipes[r].name == Strip(value.value)) ==>
      e == Some(NotUnique)
  {
    match value
    case None => if partial then None else Some(Required)
    case Some(s) =>
      if Strip(s) == "" then Some(Blank)
      else if exists r :: r in recipes && Some(r) != instance && recipes[r].name == Strip(s) then Some(NotUnique)
      else None
  }

  /** The error of the cooking time: the serializer field takes its minimum from the
      model's validator and its maximum from the `PositiveSmallIntegerField` range. */
  function CookingTimeError(value: Option<int>, partial: bool): (e: Option<FieldError>)
    ensures e.None? <==> ((value.None? && partial) ||
      (value.Some? && MinCookingTime <= value.value <= MaxSmallInteger))
    ensures value.Some? && value.value > MaxSmallInteger ==> e == Some(AboveMaximum(MaxSmallInteger))
  {
    match value
    case None => if partial then None else Some(Required)
    case Some(n) =>
      if n > MaxSmallInteger then Some(AboveMaximum(MaxSmallInteger))
      else if n < MinCookingTime then Some(BelowMinimum(MinCookingTime))
      else None
  }

  /** The validated data the serializer hands to `create` and `update`: the two text
      fields stripped, everything else as sent. */
  function Validated(data: RecipeData): (v: RecipeData)
    ensures v.ingridients == data.ingridients && v.tags == data.tags && v.image == data.image
    ensures v.cookingTime == data.cookingTime
    ensures v.name.Some? <==> data.name.Some?
    ensures v.text.Some? <==> data.text.Some?
    ensures data.name.Some? ==> v.name.value == Strip(data.name.value)
    ensures data.text.Some? ==> v.text.value == Strip(data.text.value)
  {
    data.(name := if data.name.Some? then Some(Strip(data.name.value)) else None,
          text := if data.text.Some? then Some(Strip(data.text.value)) else None)
  }

  /** `errors` with the entry for `key` added when the check refused the field. */
  function WithError(errors: map<string, FieldError>, key: string, e: Option<FieldError>): (r: map<string, FieldError>)
    ensures e.None? ==> r == errors
    ensures e.Some? ==> r == errors[key := e.value]
  {
    if e.Some? then errors[key := e.value] else errors
  }

  /** The error dict `is_valid` collects: one entry per refused field. `partial` is true
      for a partial update, where keys that were not sent are not required. */
  function FieldErrors(data: RecipeData, partial: bool, ingredients: set<IngredientId>, tags: set<TagId>,
                       recipes: map<RecipeId, RecipeRow>, instance: Option<RecipeId>): (errors: map<string, FieldError>)
    ensures errors.Keys <= {"ingridients", "tags", "image", "name", "text", "cooking_time"}
    ensures "ingridients" in errors <==> IngridientsError(data.ingridients, partial, ingredients).Some?
    ensures "tags" in errors <==> TagsError(data.tags, partial, tags).Some?
    ensures "image" in errors <==> ImageError(data.image, partial).Some?
    ensures "name" in errors <==> NameError(data.name, partial, recipes, instance).Some?
    ensures "text" in errors <==> TextError(data.text, partial).Some?
    ensures "cooking_time" in errors <==> CookingTimeError(data.cookingTime, partial).Some?
    ensures data.ingridients == Some([]) ==> errors["ingridients"] == Message(IngredientsRequired)
    ensures data.tags == Some([]) ==> errors["tags"] == Message(TagsRequired)
  {
    var e0: map<string, FieldError> := map[];
    var e1 := WithError(e0, "ingridients", IngridientsError(data.ingridients, partial, ingredients));
    var e2 := WithError(e1, "tags", TagsError(data.tags, partial, tags));
    var e3 := WithError(e2, "image", ImageError(data.image, partial));
    var e4 := WithError(e3, "name", NameError(data.name, partial, recipes, instance));
    var e5 := WithError(e4, "text", TextError(data.text, partial));
    WithError(e5, "cooking_time", CookingTimeError(data.cookingTime, partial))
  }

  /** What a full create needs of its data: every key present, tags and ingredients
      non-empty and known, amounts from 0 to 32767, an image, a name and a text with some
      non-whitespace character, a name that is new once stripped, and a cooking time
      from 1 to 32767. */
  predicate CreatableData(data: RecipeData, ingredients: set<IngredientId>, tags: set<TagId>, recipes: map<RecipeId, RecipeRow>) {
    && data.ingridients.Some? && data.tags.Some? && data.image.Some? && data.name.Some?
    && data.text.Some? && data.cookingTime.Some?
    && |data.ingridients.value| > 0 && |data.tags.value| > 0
    && (forall p :: p in data.ingridients.value ==> p.ingredient in ingredients && MinAmount <= p.amount <= MaxSmallInteger)
    && (forall t :: t in data.tags.value ==> t in tags)
    && data.image.value != ""
    && (exists k :: 0 <= k < |data.name.value| && !IsSpace(data.name.value[k]))
    && (exists k :: 0 <= k < |data.text.value| && !IsSpace(data.text.value[k]))
    && (forall r :: r in recipes ==> recipes[r].name != Strip(data.name.value))
    && MinCookingTime <= data.cookingTime.value <= MaxSmallInteger
  }

  /** A full (non-partial) body with no field errors is exactly one `create` can take. */
  lemma NoErrorsIffCreatable(data: RecipeData, ingredients: set<IngredientId>, tags: set<TagId>, recipes: map<RecipeId, RecipeRow>)
    ensures FieldErrors(data, false, ingredients, tags, recipes, None) == map[] <==> CreatableData(data, ingredients, tags, recipes)
  {
  }

  /** What the validated data of a body without field errors holds: the name and text,
      when sent, are stripped, not empty, and the name is no other recipe's; the cooking
      time is in range; the tags and ingredients exist and no amount is negative. */
  lemma ValidatedFields(data: RecipeData, partial: bool, ingredients: set<IngredientId>, tags: set<TagId>,
                        recipes: map<RecipeId, RecipeRow>, instance: Option<RecipeId>)
    requires FieldErrors(data, partial, ingredients, tags, recipes, instance) == map[]
    ensures var v := Validated(data);
      && (v.name.Some? ==> v.name.value != "" && Strip(v.name.value) == v.name.value &&
                           forall r :: r in recipes && Some(r) != instance ==> recipes[r].name != v.name.value)
      && (v.text.Some? ==> v.text.value != "" && Strip(v.text.value) == v.text.value)
      && (v.cookingTime.Some? ==> MinCookingTime <= v.cookingTime.value <= MaxSmallInteger)
      && (v.tags.Some? ==> forall t :: t in v.tags.value ==> t in tags)
      && (v.ingridients.Some? ==> forall p :: p in v.ingridients.value ==> p.ingredient in ingredients && MinAmount <= p.amount <= MaxSmallInteger)
  {
    var v := Validated(data);
    if data.name.Some? {
      assert "name" !in FieldErrors(data, partial, ingredients, tags, recipes, instance);
      assert NameError(data.name, partial, recipes, instance).None?;
      StripIdempotent(data.name.value);
    }
    if data.text.Some? {
      assert "text" !in FieldErrors(data, partial, ingredients, tags, recipes, instance);
      StripIdempotent(data.text.value);
    }
  }

  /** The ingredient ids of the entries, and the entries up to the first repeated id:
      the links `create` manages to insert before the unique constraint stops it. */
  function InsertedPortions(ps: seq<Portion>): (r: seq<Portion>)
    ensures r == ps <==> NoDuplicates(IngredientIds(ps))
    ensures |r| <= |ps| && r == ps[..|r|]
    ensures NoDuplicates(IngredientIds(r))
  {
    var k := DistinctPrefix(IngredientIds(ps));
    DistinctPrefixAll(IngredientIds(ps));
    DistinctPrefixProperties(IngredientIds(ps));
    assert IngredientIds(ps[..k]) == IngredientIds(ps)[..k];
    ps[..k]
  }

  /** The loop stops at the first entry whose ingredient occurred before. */
  lemma InsertionStops(ps: seq<Portion>, j: nat)
    requires j < |ps| && NoDuplicates(IngredientIds(ps)[..j]) && IngredientIds(ps)[j] in IngredientIds(ps)[..j]
    ensures InsertedPortions(ps) == ps[..j] && !NoDuplicates(IngredientIds(ps))
  {
    DistinctPrefixAt(IngredientIds(ps), j);
    DistinctPrefixAll(IngredientIds(ps));
  }

  /** The tag loop of `create` and `update`: one link per tag, in input order. */
  method InsertTagLinks(db: Db, r: RecipeId, tags: seq<TagId>)
    requires db.Valid() && r in db.recipes
    requires forall t :: t in tags ==> t in db.tags
    modifies db`recipeTags
    ensures db.Valid()
    ensures db.recipeTags == old(db.recipeTags) + TagLinks(r, tags)
  {
    var i := 0;
    while i < |tags|
      invariant 0 <= i <= |tags|
      invariant db.Valid()
      invariant db.recipeTags == old(db.recipeTags) + TagLinks(r, tags[..i])
    {
      assert tags[i] in tags;
      // `Tag.objects.get(id=tag.id)` fetches the same tag again.
      db.AddRecipeTag(r, tags[i]);
      TagLinksPrefix(r, tags, i);
      i := i + 1;
    }
    assert tags[..i] == tags;
  }

  /** One pass of the ingredient loop: the ingredient is fetched again (by name in
      `create`, by id in `update`) and its link inserted. */
  method InsertEntry(db: Db, r: RecipeId, p: Portion, byName: bool) returns (res: Result<(), DbError>)
    requires db.Valid() && r in db.recipes && p.ingredient in db.ingredients && p.amount >= MinAmount
    modifies db`recipeIngredients
    ensures db.Valid()
    ensures res.Ok? <==> !HasLink(old(db.recipeIngredients), p.ingredient, r)
    ensures res.Ok? ==> db.recipeIngredients == old(db.recipeIngredients) + [RecipeIngredient(p.ingredient, r, p.amount)]
    ensures res.Err? ==> res.error == IntegrityError && db.recipeIngredients == old(db.recipeIngredients)
  {
    var current := p.ingredient;
    if byName {
      current :| current in db.ingredients && db.ingredients[current].name == db.ingredients[p.ingredient].name;
      NameIdentifiesIngredient(db.ingredients, current, p.ingredient);
    }
    res := db.AddRecipeIngredient(current, r, p.amount);
  }

  /** The ingredient loop of `create` and `update`, for a recipe with no ingredient links
      yet: one link per entry, in input order, until an entry repeats an ingredient and
      the unique constraint refuses its link. */
  method InsertIngredientLinks(db: Db, r: RecipeId, ps: seq<Portion>, byName: bool) returns (res: Result<(), DbError>)
    requires db.Valid() && r in db.recipes
    requires forall l :: l in db.recipeIngredients ==> l.recipe != r
    requires forall p :: p in ps ==> p.ingredient in db.ingredients && p.amount >= MinAmount
    modifies db`recipeIngredients
    ensures db.Valid()
    ensures db.recipeIngredients == old(db.recipeIngredients) + IngredientLinks(r, InsertedPortions(ps))
    ensures res.Ok? <==> NoDuplicates(IngredientIds(ps))
    ensures res.Err? ==> res.error == IntegrityError
  {
    ghost var links0 := db.recipeIngredients;
    var ids := IngredientIds(ps);
    var j := 0;
    while j < |ps|
      invariant 0 <= j <= |ps|
      invariant db.Valid() && r in db.recipes
      invariant db.recipeIngredients == links0 + IngredientLinks(r, ps[..j])
      invariant NoDuplicates(ids[..j])
    {
      assert ps[j] in ps;
      IngredientLinksPrefix(r, ps, j);
      HasLinkAfterInsert(links0, r, ps[..j], ps[j].ingredient);
      var added := InsertEntry(db, r, ps[j], byName);
      if added.Err? {
        InsertionStops(ps, j);
        return Err(added.error);
      }
      AppendNoDuplicates(ids[..j], ids[j]);
      j := j + 1;
    }
    assert ps[..j] == ps && ids[..j] == ids;
    return Ok(());
  }

  /** `RecipeCreateSerializer.create` after `perform_create` added the author: the recipe
      row, then one tag link per tag, then one ingredient link per entry, each in input
      order. The first entry repeating an ingredient violates the unique constraint; the
      error propagates and what was written before it stays. `row` is the id of the
      recipe row if it was written. */
  method Create(db: Db, author: UserId, ps: seq<Portion>, tags: seq<TagId>, image: string, name: string, text: string, cookingTime: int)
    returns (res: Result<RecipeId, DbError>, row: Option<RecipeId>)
    requires db.Valid() && author in db.users
    requires forall t :: t in tags ==> t in db.tags
    requires forall p :: p in ps ==> p.ingredient in db.ingredients && p.amount >= MinAmount
    modifies db`recipes, db`nextId, db`recipeTags, db`recipeIngredients
    ensures db.Valid()
    ensures row.None? <==> cookingTime < 0 || exists r :: r in old(db.recipes) && old(db.recipes)[r].name == name
    ensures row.None? ==>
      && res == Err(IntegrityError) && db.recipes == old(db.recipes)
      && db.recipeTags == old(db.recipeTags) && db.recipeIngredients == old(db.recipeIngredients)
    ensures row.Some? ==>
      var r := row.value;
      && r !in old(db.recipes)
      && db.recipes == old(db.recipes)[r := RecipeRow(name, text, cookingTime, author, image)]
      && db.recipeTags == old(db.recipeTags) + TagLinks(r, tags)
      && db.recipeIngredients == old(db.recipeIngredients) + IngredientLinks(r, InsertedPortions(ps))
      && TagsOf(db.recipeTags, r) == tags
      && PortionsOf(db.recipeIngredients, r) == InsertedPortions(ps)
      && (forall q :: q != r ==>
            TagsOf(db.recipeTags, q) == TagsOf(old(db.recipeTags), q) &&
            PortionsOf(db.recipeIngredients, q) == PortionsOf(old(db.recipeIngredients), q))
      && (res.Ok? <==> NoDuplicates(IngredientIds(ps)))
      && (res.Ok? ==> res.value == r)
      && (res.Err? ==> res.error == IntegrityError)
  {
    var saved := db.CreateRecipe(RecipeRow(name, text, cookingTime, author, image));
    if saved.Err? {
      return Err(saved.error), None;
    }
    var r := saved.value;
    row := Some(r);
    ghost var tags0, links0 := db.recipeTags, db.recipeIngredients;
    InsertTagLinks(db, r, tags);
    var inserted := InsertIngredientLinks(db, r, ps, true);
    forall q
      ensures TagsOf(db.recipeTags, q) == TagsOf(tags0, q) + if q == r then tags else []
      ensures PortionsOf(db.recipeIngredients, q) == PortionsOf(links0, q) + if q == r then InsertedPortions(ps) else []
    {
      AppendedLinks(tags0, links0, r, tags, InsertedPortions(ps), q);
    }
    assert TagsOf(tags0, r) == [] by { TagsOfNone(tags0, r); }
    assert PortionsOf(links0, r) == [] by { PortionsOfNone(links0, r); }
    if inserted.Err? {
      return Err(inserted.error), row;
    }
    return Ok(r), row;
  }

  /** The recipe row `update` means to save: every field that was sent replaces the
      stored one, and the author stays, whatever `perform_update` passed. */
  function Patched(row: RecipeRow, data: RecipeData): (r: RecipeRow)
    ensures r.author == row.author
    ensures r.name == if data.name.Some? then data.name.value else row.name
    ensures r.text == if data.text.Some? then data.text.value else row.text
    ensures r.cookingTime == if data.cookingTime.Some? then data.cookingTime.value else row.cookingTime
    ensures r.image == if data.image.Some? then data.image.value else row.image
  {
    RecipeRow(data.name.GetOr(row.name), data.text.GetOr(row.text), data.cookingTime.GetOr(row.cookingTime),
              row.author, data.image.GetOr(row.image))
  }

  /** After a recipe's links are deleted and new ones appended, the recipe has exactly
      the new tags and portions, and every other recipe the ones it had. */
  lemma ReplacedLinks(tags0: seq<RecipeTag>, links0: seq<RecipeIngredient>, r: RecipeId,
                      tags: seq<TagId>, ps: seq<Portion>, q: RecipeId)
    ensures TagsOf(Keep(tags0, (l: RecipeTag) => l.recipe != r) + TagLinks(r, tags), q) ==
      if q == r then tags else TagsOf(tags0, q)
    ensures PortionsOf(Keep(links0, (l: RecipeIngredient) => l.recipe != r) + IngredientLinks(r, ps), q) ==
      if q == r then ps else PortionsOf(links0, q)
  {
    TagsOfAppend(Keep(tags0, (l: RecipeTag) => l.recipe != r), TagLinks(r, tags), q);
    TagsOfTagLinks(r, tags, q);
    TagsOfWithout(tags0, r, q);
    PortionsOfAppend(Keep(links0, (l: RecipeIngredient) => l.recipe != r), IngredientLinks(r, ps), q);
    PortionsOfIngredientLinks(r, ps, q);
    PortionsOfWithout(links0, r, q);
  }

  /** After links for a new recipe are appended, it has exactly those tags and portions,
      and every other recipe the ones it had. */
  lemma AppendedLinks(tags0: seq<RecipeTag>, links0: seq<RecipeIngredient>, r: RecipeId,
                      tags: seq<TagId>, ps: seq<Portion>, q: RecipeId)
    ensures TagsOf(tags0 + TagLinks(r, tags), q) == TagsOf(tags0, q) + if q == r then tags else []
    ensures PortionsOf(links0 + IngredientLinks(r, ps), q) == PortionsOf(links0, q) + if q == r then ps else []
  {
    TagsOfAppend(tags0, TagLinks(r, tags), q);
    TagsOfTagLinks(r, tags, q);
    PortionsOfAppend(links0, IngredientLinks(r, ps), q);
    PortionsOfIngredientLinks(r, ps, q);
  }

  /** `RecipeCreateSerializer.update`: every tag and ingredient link of the recipe is
      deleted, the links for the tags and entries that were sent are inserted (none for
      a key that was not sent), and the patched row is saved last. A repeated ingredient
      stops the insertion with an integrity error before the row is saved, so the deleted
      links stay deleted and the row keeps its old fields. Other recipes' links are kept. */
  method Update(db: Db, instance: RecipeId, data: RecipeData) returns (res: Result<(), DbError>)
    requires db.Valid() && instance in db.recipes
    requires data.tags.Some? ==> forall t :: t in data.tags.value ==> t in db.tags
    requires data.ingridients.Some? ==>
      forall p :: p in data.ingridients.value ==> p.ingredient in db.ingredients && p.amount >= MinAmount
    modifies db`recipes, db`recipeTags, db`recipeIngredients
    ensures db.Valid()
    ensures db.recipeTags ==
      Keep(old(db.recipeTags), (l: RecipeTag) => l.recipe != instance) + TagLinks(instance, data.tags.GetOr([]))
    ensures db.recipeIngredients ==
      Keep(old(db.recipeIngredients), (l: RecipeIngredient) => l.recipe != instance)
        + IngredientLinks(instance, InsertedPortions(data.ingridients.GetOr([])))
    ensures TagsOf(db.recipeTags, instance) == data.tags.GetOr([])
    ensures PortionsOf(db.recipeIngredients, instance) == InsertedPortions(data.ingridients.GetOr([]))
    ensures forall q :: q != instance ==>
      TagsOf(db.recipeTags, q) == TagsOf(old(db.recipeTags), q) &&
      PortionsOf(db.recipeIngredients, q) == PortionsOf(old(db.recipeIngredients), q)
    ensures var row := Patched(old(db.recipes)[instance], data);
      res.Ok? <==>
        && NoDuplicates(IngredientIds(data.ingridients.GetOr([])))
        && row.cookingTime >= 0
        && forall r :: r in old(db.recipes) && r != instance ==> old(db.recipes)[r].name != row.name
    ensures res.Ok? ==> db.recipes == old(db.recipes)[instance := Patched(old(db.recipes)[instance], data)]
    ensures res.Err? ==> res.error == IntegrityError && db.recipes == old(db.recipes)
  {
    ghost var tags0, links0 := db.recipeTags, db.recipeIngredients;
    db.DeleteRecipeTags(instance);
    db.DeleteRecipeIngredients(instance);
    ghost var keptTags, keptLinks := db.recipeTags, db.recipeIngredients;
    var row := Patched(db.recipes[instance], data);
    var tags := data.tags.GetOr([]);
    var ps := data.ingridients.GetOr([]);
    InsertTagLinks(db, instance, tags);
    var inserted := InsertIngredientLinks(db, instance, ps, false);

    forall q
      ensures TagsOf(db.recipeTags, q) == if q == instance then tags else TagsOf(tags0, q)
      ensures PortionsOf(db.recipeIngredients, q) == if q == instance then InsertedPortions(ps) else PortionsOf(links0, q)
    {
      ReplacedLinks(tags0, links0, instance, tags, InsertedPortions(ps), q);
    }

    if inserted.Err? {
      return inserted;
    }
    res := db.SaveRecipe(instance, row);
  }

  // ------------------------------------------------------------- read-only fields

  /** `RecipeSerializer.get_is_favorited`. */
  function IsFavorited(requester: Requester, recipe: RecipeId, favorites: seq<FavoriteRecipe>): (b: bool)
    ensures b <==> requester.Account? && FavoriteRecipe(requester.id, recipe) in favorites
  {
    if !requester.IsAuthenticated() then false
    else
      KeepEmptyIff(favorites, (f: FavoriteRecipe) => f.recipe == recipe && f.user == requester.id);
      Keep(favorites, (f: FavoriteRecipe) => f.recipe == recipe && f.user == requester.id) != []
  }

  /** `RecipeSerializer.get_is_in_shopping_cart`: whether the recipe is in any cart at all,
      whoever asks. */
  function IsInShoppingCart(recipe: RecipeId, cartItems: seq<CartItem>): (b: bool)
    ensures b <==> exists c :: c in cartItems && c.recipe == recipe
  {
    KeepEmptyIff(cartItems, (c: CartItem) => c.recipe == recipe);
    Keep(cartItems, (c: CartItem) => c.recipe == recipe) != []
  }

  /** `UserSerializer.get_is_subscribed`. */
  function UserIsSubscribed(user: UserId, author: UserId, subscriptions: seq<Subscription>): (b: bool)
    ensures !b
  {
    false
  }

  /** `UserMeSerializer.get_is_subscribed`. */
  function UserMeIsSubscribed(requester: Requester, author: UserId, subscriptions: seq<Subscription>): (b: bool)
    ensures b <==> requester.Account? && Subscription(requester.id, author) in subscriptions
  {
    if !requester.IsAuthenticated() then false
    else
      KeepEmptyIff(subscriptions, (s: Subscription) => s.user == requester.id && s.author == author);
      Keep(subscriptions, (s: Subscription) => s.user == requester.id && s.author == author) != []
  }

  /** `UserSubscriptionSerializer.get_is_subscribed`, whose views only serve signed-in users. */
  function SubscriptionIsSubscribed(user: UserId, author: UserId, subscriptions: seq<Subscription>): (b: bool)
    ensures b <==> Subscription(user, author) in subscriptions
  {
    KeepEmptyIff(subscriptions, (s: Subscription) => s.user == user && s.author == author);
    Keep(subscriptions, (s: Subscription) => s.user == user && s.author == author) != []
  }

  /** The recipes `author` wrote: the related set `user.recipes`. */
  function AuthoredBy(author: UserId, recipes: map<RecipeId, RecipeRow>): (ids: set<RecipeId>)
    ensures forall r :: r in ids <==> r in recipes && recipes[r].author == author
  {
    set r | r in recipes && recipes[r].author == author
  }

  /** `UserSubscriptionSerializer.get_recipes_count`: `obj.recipes.all().count()`. */
  function RecipesCount(author: UserId, recipes: map<RecipeId, RecipeRow>): nat {
    |AuthoredBy(author, recipes)|
  }

  /** Writing a recipe adds one to its author's count and leaves every other count. */
  lemma RecipesCountAfterCreate(recipes: map<RecipeId, RecipeRow>, id: RecipeId, row: RecipeRow, author: UserId)
    requires id !in recipes
    ensures RecipesCount(author, recipes[id := row]) ==
      RecipesCount(author, recipes) + (if row.author == author then 1 else 0)
  {
    var before, after := AuthoredBy(author, recipes), AuthoredBy(author, recipes[id := row]);
    if row.author == author {
      assert after == before + {id} && id !in before;
    } else {
      assert after == before;
    }
  }

  /** Deleting a recipe takes one from its author's count and leaves every other count. */
  lemma RecipesCountAfterDelete(recipes: map<RecipeId, RecipeRow>, id: RecipeId, author: UserId)
    requires id in recipes
    ensures RecipesCount(author, recipes - {id}) + (if recipes[id].author == author then 1 else 0) ==
      RecipesCount(author, recipes)
  {
    var before, after := AuthoredBy(author, recipes), AuthoredBy(author, recipes - {id});
    if recipes[id].author == author {
      assert before == after + {id} && id !in after;
    } else {
      assert after == before;
    }
  }
}
