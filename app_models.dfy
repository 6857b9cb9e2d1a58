/** The recipe app's tables: tags, ingredients, recipes, their links, and favorites, with
    the field validators and the constraints the database keeps. */
module AppModels {

  import opened Seqs
  import opened Regex

  type UserId = nat
  type TagId = nat
  type IngredientId = nat
  type RecipeId = nat

  datatype TagRow = TagRow(name: string, color: string, slug: string)
  datatype IngredientRow = IngredientRow(name: string, measurementUnit: string)
  datatype RecipeRow = RecipeRow(name: string, text: string, cookingTime: int, author: UserId, image: string)

  /** One row of the recipe-tag link table; the table has no uniqueness constraint. */
  datatype RecipeTag = RecipeTag(recipe: RecipeId, tag: TagId)

  /** One row of the recipe-ingredient link table: how much of an ingredient a recipe needs. */
  datatype RecipeIngredient = RecipeIngredient(ingredient: IngredientId, recipe: RecipeId, amount: int)

  /** An ingredient and an amount, as a request lists them and as a recipe's links carry them. */
  datatype Portion = Portion(ingredient: IngredientId, amount: int)

  datatype FavoriteRecipe = FavoriteRecipe(user: UserId, recipe: RecipeId)

  // ---------------------------------------------------------------- Tag.color

  /** `[0-9A-Fa-f]` */
  const HexDigit := Class([('0', '9'), ('A', 'F'), ('a', 'f')])

  /** `^#[0-9A-Fa-f]{6}$` */
  const ColourPattern: seq<Item> := [Bol, Lit('#')] + Times(HexDigit, 6) + [Eol]

  const ColourMessage := "Введите валидноезначение в формате HEX"
  const ColourMaxLength := 7

  predicate IsHexDigit(c: char) {
    '0' <= c <= '9' || 'A' <= c <= 'F' || 'a' <= c <= 'f'
  }

  /** What `full_clean` accepts as a colour: not blank, the pattern found, at most 7 characters. */
  predicate ColourValid(color: string) {
    color != "" && Search(ColourPattern, color) && |color| <= ColourMaxLength
  }

  lemma HexDigitClass(c: char)
    ensures InClass(c, HexDigit.ranges) <==> IsHexDigit(c)
  {
    var rs := HexDigit.ranges;
    if '0' <= c <= '9' {
      assert rs[0].0 <= c <= rs[0].1;
    } else if 'A' <= c <= 'F' {
      assert rs[1].0 <= c <= rs[1].1;
    } else if 'a' <= c <= 'f' {
      assert rs[2].0 <= c <= rs[2].1;
    }
  }

  /** A colour is valid exactly when it is "#" and six hexadecimal digits. The pattern alone
      would also take a final newline (Python's `$`); the length limit rules that out. */
  lemma ColourValidIff(color: string)
    ensures ColourValid(color) <==>
      |color| == 7 && color[0] == '#' && forall k :: 1 <= k < 7 ==> IsHexDigit(color[k])
  {
    var p := ColourPattern;
    AnchoredSearch(p, color);
    assert p[1..] == [Lit('#')] + (Times(HexDigit, 6) + [Eol]);
    assert p[2..] == Times(HexDigit, 6) + [Eol];
    if |color| >= 1 {
      assert InClass(color[0], [('#', '#')]) <==> color[0] == '#' by {
        if color[0] == '#' {
          assert [('#', '#')][0].0 <= color[0] <= [('#', '#')][0].1;
        }
      }
      MatchTimes(HexDigit.ranges, 6, [Eol], color, 1);
      forall k | 1 <= k < 7 && k < |color| ensures InClass(color[k], HexDigit.ranges) <==> IsHexDigit(color[k]) {
        HexDigitClass(color[k]);
      }
    }
  }

  /** The colour of the test that must not be saved. */
  lemma NoColourRejected()
    ensures !ColourValid("NOCOLOR")
  {
    ColourValidIff("NOCOLOR");
  }

  /** `str.upper` on one character; letters outside ASCII are left as they are. */
  function UpperChar(c: char): char {
    if 'a' <= c <= 'z' then (c as int - 32) as char else c
  }

  /** `str.upper`. */
  function Upper(s: string): (u: string)
    ensures |u| == |s|
  {
    seq(|s|, i requires 0 <= i < |s| => UpperChar(s[i]))
  }

  lemma UpperIdempotent(s: string)
    ensures Upper(Upper(s)) == Upper(s)
  {
  }

  /** Upper-casing a valid colour gives a valid colour with no lower-case hex digit. */
  lemma UpperKeepsColourValid(color: string)
    requires ColourValid(color)
    ensures ColourValid(Upper(color))
    ensures forall k :: 0 <= k < |color| ==> !('a' <= Upper(color)[k] <= 'z')
  {
    ColourValidIff(color);
    ColourValidIff(Upper(color));
  }

  // ------------------------------------------------------- field validators

  /** `MinValueValidator(1)` on `Recipe.cooking_time`. */
  const MinCookingTime := 1
  const CookingTimeMessage := "Время приготовления не может быть меньше 1"

  /** The largest value of a `PositiveSmallIntegerField`. */
  const MaxSmallInteger := 32767

  /** `MinValueValidator(0)` on the ingredient amount of a recipe. */
  const MinAmount := 0
  const AmountMessage := "Количество не может быть меньше 0"

  // ------------------------------------------------------------ constraints

  /** `Tag.name` and `Tag.slug` are each unique. */
  ghost predicate TagsUnique(tags: map<TagId, TagRow>) {
    forall a, b :: a in tags && b in tags && a != b ==>
      tags[a].name != tags[b].name && tags[a].slug != tags[b].slug
  }

  /** `Ingridient.name` is unique. */
  ghost predicate IngredientNamesUnique(ingredients: map<IngredientId, IngredientRow>) {
    forall a, b :: a in ingredients && b in ingredients && a != b ==> ingredients[a].name != ingredients[b].name
  }

  /** Fetching an ingredient by its name finds the ingredient the name came from. */
  lemma NameIdentifiesIngredient(ingredients: map<IngredientId, IngredientRow>, a: IngredientId, b: IngredientId)
    requires IngredientNamesUnique(ingredients) && a in ingredients && b in ingredients
    requires ingredients[a].name == ingredients[b].name
    ensures a == b
  {
  }

  /** `Recipe.name` is unique. */
  ghost predicate RecipeNamesUnique(recipes: map<RecipeId, RecipeRow>) {
    forall a, b :: a in recipes && b in recipes && a != b ==> recipes[a].name != recipes[b].name
  }

  /** `unique_ingridient_for_recipe`: at most one link per (ingredient, recipe). */
  ghost predicate OneLinkPerIngredient(links: seq<RecipeIngredient>) {
    forall i, j :: 0 <= i < j < |links| ==>
      links[i].ingredient != links[j].ingredient || links[i].recipe != links[j].recipe
  }

  /** Whether a link for (ingredient, recipe) exists already. */
  predicate HasLink(links: seq<RecipeIngredient>, ingredient: IngredientId, recipe: RecipeId) {
    exists l :: l in links && l.ingredient == ingredient && l.recipe == recipe
  }

  lemma AppendLinkKeepsOne(links: seq<RecipeIngredient>, l: RecipeIngredient)
    requires OneLinkPerIngredient(links) && !HasLink(links, l.ingredient, l.recipe)
    ensures OneLinkPerIngredient(links + [l])
  {
    forall i, j | 0 <= i < j < |links + [l]|
      ensures (links + [l])[i].ingredient != (links + [l])[j].ingredient || (links + [l])[i].recipe != (links + [l])[j].recipe
    {
      assert (links + [l])[i] == links[i];
      if j == |links| {
        assert links[i] in links;
      } else {
        assert (links + [l])[j] == links[j];
      }
    }
  }

  lemma KeepKeepsOneLink(links: seq<RecipeIngredient>, p: RecipeIngredient -> bool)
    requires OneLinkPerIngredient(links)
    ensures OneLinkPerIngredient(Keep(links, p))
    decreases |links|
  {
    if links != [] {
      KeepKeepsOneLink(links[1..], p);
      var rest := Keep(links[1..], p);
      if p(links[0]) {
        var r := [links[0]] + rest;
        forall i, j | 0 <= i < j < |r| ensures r[i].ingredient != r[j].ingredient || r[i].recipe != r[j].recipe {
          if i == 0 {
            assert r[j] in rest;
            assert r[j] in links[1..];
            var k :| 0 <= k < |links[1..]| && links[1..][k] == r[j];
            assert links[k + 1] == r[j];
          } else {
            assert r[i] == rest[i - 1] && r[j] == rest[j - 1];
          }
        }
      }
    }
  }

  // -------------------------------------------------- a recipe's links, in order

  /** The tags linked to recipe `r`, in link order. */
  function TagsOf(links: seq<RecipeTag>, r: RecipeId): seq<TagId>
    decreases |links|
  {
    if links == [] then []
    else (if links[0].recipe == r then [links[0].tag] else []) + TagsOf(links[1..], r)
  }

  /** The ingredients and amounts linked to recipe `r`, in link order. */
  function PortionsOf(links: seq<RecipeIngredient>, r: RecipeId): seq<Portion>
    decreases |links|
  {
    if links == [] then []
    else (if links[0].recipe == r then [Portion(links[0].ingredient, links[0].amount)] else []) + PortionsOf(links[1..], r)
  }

  /** One link per tag, in the given order: what the create and update loops insert. */
  function TagLinks(r: RecipeId, tags: seq<TagId>): (links: seq<RecipeTag>)
    ensures |links| == |tags|
    ensures forall k :: 0 <= k < |tags| ==> links[k] == RecipeTag(r, tags[k])
  {
    seq(|tags|, k requires 0 <= k < |tags| => RecipeTag(r, tags[k]))
  }

  /** One link per portion, in the given order. */
  function IngredientLinks(r: RecipeId, ps: seq<Portion>): (links: seq<RecipeIngredient>)
    ensures |links| == |ps|
    ensures forall k :: 0 <= k < |ps| ==> links[k] == RecipeIngredient(ps[k].ingredient, r, ps[k].amount)
  {
    seq(|ps|, k requires 0 <= k < |ps| => RecipeIngredient(ps[k].ingredient, r, ps[k].amount))
  }

  function IngredientIds(ps: seq<Portion>): (ids: seq<IngredientId>)
    ensures |ids| == |ps|
    ensures forall k :: 0 <= k < |ps| ==> ids[k] == ps[k].ingredient
  {
    seq(|ps|, k requires 0 <= k < |ps| => ps[k].ingredient)
  }

  /** The links for one more tag are the links so far and one link for that tag. */
  lemma TagLinksPrefix(r: RecipeId, tags: seq<TagId>, j: nat)
    requires j < |tags|
    ensures TagLinks(r, tags[..j + 1]) == TagLinks(r, tags[..j]) + [RecipeTag(r, tags[j])]
  {
    assert TagLinks(r, tags[..j + 1])[j] == RecipeTag(r, tags[j]);
  }

  /** The links for one more entry are the links so far and one link for that entry, and
      the ids of a prefix are the prefix of the ids. */
  lemma IngredientLinksPrefix(r: RecipeId, ps: seq<Portion>, j: nat)
    requires j < |ps|
    ensures IngredientLinks(r, ps[..j + 1]) == IngredientLinks(r, ps[..j]) + [RecipeIngredient(ps[j].ingredient, r, ps[j].amount)]
    ensures IngredientIds(ps)[..j + 1] == IngredientIds(ps)[..j] + [ps[j].ingredient]
    ensures IngredientIds(ps[..j]) == IngredientIds(ps)[..j]
  {
    assert IngredientLinks(r, ps[..j + 1])[j] == RecipeIngredient(ps[j].ingredient, r, ps[j].amount);
  }

  lemma {:induction false} TagsOfAppend(a: seq<RecipeTag>, b: seq<RecipeTag>, r: RecipeId)
    ensures TagsOf(a + b, r) == TagsOf(a, r) + TagsOf(b, r)
    decreases |a|
  {
    if a == [] {
      assert a + b == b;
    } else {
      var head := if a[0].recipe == r then [a[0].tag] else [];
      assert (a + b)[0] == a[0];
      assert (a + b)[1..] == a[1..] + b;
      assert TagsOf(a + b, r) == head + TagsOf(a[1..] + b, r);
      TagsOfAppend(a[1..], b, r);
      assert TagsOf(a, r) == head + TagsOf(a[1..], r);
    }
  }

  lemma {:induction false} PortionsOfAppend(a: seq<RecipeIngredient>, b: seq<RecipeIngredient>, r: RecipeId)
    ensures PortionsOf(a + b, r) == PortionsOf(a, r) + PortionsOf(b, r)
    decreases |a|
  {
    if a == [] {
      assert a + b == b;
    } else {
      var head := if a[0].recipe == r then [Portion(a[0].ingredient, a[0].amount)] else [];
      assert (a + b)[0] == a[0];
      assert (a + b)[1..] == a[1..] + b;
      assert PortionsOf(a + b, r) == head + PortionsOf(a[1..] + b, r);
      PortionsOfAppend(a[1..], b, r);
      assert PortionsOf(a, r) == head + PortionsOf(a[1..], r);
    }
  }

  /** The links inserted for `r` give back exactly the supplied tags, and none for another recipe. */
  lemma {:induction false} TagsOfTagLinks(r: RecipeId, tags: seq<TagId>, q: RecipeId)
    ensures TagsOf(TagLinks(r, tags), q) == if q == r then tags else []
    decreases |tags|
  {
    if tags != [] {
      TagsOfTagLinks(r, tags[1..], q);
      assert TagLinks(r, tags)[1..] == TagLinks(r, tags[1..]);
    }
  }

  /** The links inserted for `r` give back exactly the supplied portions, and none for another recipe. */
  lemma {:induction false} PortionsOfIngredientLinks(r: RecipeId, ps: seq<Portion>, q: RecipeId)
    ensures PortionsOf(IngredientLinks(r, ps), q) == if q == r then ps else []
    decreases |ps|
  {
    if ps != [] {
      PortionsOfIngredientLinks(r, ps[1..], q);
      assert IngredientLinks(r, ps)[1..] == IngredientLinks(r, ps[1..]);
    }
  }

  /** Deleting the links of `r` leaves it none and leaves every other recipe's links as they were. */
  lemma {:induction false} TagsOfWithout(links: seq<RecipeTag>, r: RecipeId, q: RecipeId)
    ensures TagsOf(Keep(links, (l: RecipeTag) => l.recipe != r), q) == if q == r then [] else TagsOf(links, q)
    decreases |links|
  {
    if links != [] {
      TagsOfWithout(links[1..], r, q);
    }
  }

  lemma {:induction false} PortionsOfWithout(links: seq<RecipeIngredient>, r: RecipeId, q: RecipeId)
    ensures PortionsOf(Keep(links, (l: RecipeIngredient) => l.recipe != r), q) == if q == r then [] else PortionsOf(links, q)
    decreases |links|
  {
    if links != [] {
      PortionsOfWithout(links[1..], r, q);
    }
  }

  /** A recipe none of whose links are in the table has no tags in it. */
  lemma {:induction false} TagsOfNone(links: seq<RecipeTag>, r: RecipeId)
    requires forall l :: l in links ==> l.recipe != r
    ensures TagsOf(links, r) == []
    decreases |links|
  {
    if links != [] {
      assert links[0] in links;
      TagsOfNone(links[1..], r);
    }
  }

  /** A recipe none of whose links are in the table has no portions in it. */
  lemma {:induction false} PortionsOfNone(links: seq<RecipeIngredient>, r: RecipeId)
    requires forall l :: l in links ==> l.recipe != r
    ensures PortionsOf(links, r) == []
    decreases |links|
  {
    if links != [] {
      assert links[0] in links;
      PortionsOfNone(links[1..], r);
    }
  }

  /** When `r` has no links of its own yet, a link for (i, r) exists in `base + new links`
      exactly when `i` is among the new portions. */
  lemma HasLinkAfterInsert(base: seq<RecipeIngredient>, r: RecipeId, ps: seq<Portion>, i: IngredientId)
    requires forall l :: l in base ==> l.recipe != r
    ensures HasLink(base + IngredientLinks(r, ps), i, r) <==> i in IngredientIds(ps)
  {
    var links := base + IngredientLinks(r, ps);
    if i in IngredientIds(ps) {
      var k :| 0 <= k < |ps| && IngredientIds(ps)[k] == i;
      assert links[|base| + k] == IngredientLinks(r, ps)[k];
      assert links[|base| + k] in links;
    }
    if HasLink(links, i, r) {
      var l :| l in links && l.ingredient == i && l.recipe == r;
      assert l !in base;
      assert l in IngredientLinks(r, ps);
      var k :| 0 <= k < |ps| && IngredientLinks(r, ps)[k] == l;
      assert IngredientIds(ps)[k] == i;
    }
  }
}
