/** `get_queryset` and `get_object_or_400`: fetch the one object a lookup selects, turning
    "no such object" into a 400 response. */
module Generics {

  import opened Wrappers
  import opened Seqs
  import opened Exceptions

  /** What can be passed as `klass`: a model class (it has `_default_manager`), a manager,
      a queryset, or any other value (a class or an instance) that has no `get`. The
      first three carry the table's rows in primary-key order. */
  datatype Source<T> =
    | ModelClass(rows: seq<T>)
    | Manager(rows: seq<T>)
    | QuerySet(rows: seq<T>)
    | Plain(isClass: bool, ownName: string, className: string)
  {
    predicate HasGet() { !Plain? }
  }

  /** The keyword arguments of the lookup: a filter on rows, or arguments that make the ORM
      raise `TypeError`, `ValueError` or `ValidationError` while evaluating them. */
  datatype Lookup<!T> = Filter(matches: T -> bool) | Invalid(error: string)

  datatype Outcome<T> = Found(obj: T) | Raised(exc: Exc)

  /** `get_queryset(klass)`: `klass._default_manager.all()` for a model class, else `klass`. */
  function GetQueryset<T>(klass: Source<T>): (q: Source<T>)
    ensures klass.ModelClass? ==> q == QuerySet(klass.rows)
    ensures !klass.ModelClass? ==> q == klass
  {
    if klass.ModelClass? then QuerySet(klass.rows) else klass
  }

  function NotAModelMessage(name: string): string {
    "First argument to get_object_or_400() must be a Model, Manager, or QuerySet, not '" + name + "'."
  }

  /** `get_object_or_400(klass, **kwargs)`. The `except` clause names
      `queryset.model.DoesNotExist or (TypeError, ValueError, ValidationError)`, an expression
      whose value is `DoesNotExist`, so only a missing object is turned into `Http400`;
      several objects and bad lookup arguments propagate unchanged. */
  function GetObjectOr400<T(!new)>(klass: Source<T>, lookup: Lookup<T>): (r: Outcome<T>)
    ensures !klass.HasGet() ==>
      r == Raised(NonApi("ValueError", NotAModelMessage(if klass.isClass then klass.ownName else klass.className)))
    ensures klass.HasGet() && lookup.Invalid? ==> r == Raised(NonApi(lookup.error, ""))
    ensures klass.HasGet() && lookup.Filter? ==>
      var matching := Keep(klass.rows, lookup.matches);
      && (r.Found? <==> |matching| == 1)
      && (r.Found? ==> r.obj in klass.rows && lookup.matches(r.obj))
      && (r == Raised(Http400Exc(None)) <==> matching == [])
      && (|matching| > 1 ==> r == Raised(NonApi("MultipleObjectsReturned", "")))
  {
    var queryset := GetQueryset(klass);
    if !queryset.HasGet() then
      var name := if klass.isClass then klass.ownName else klass.className;
      Raised(NonApi("ValueError", NotAModelMessage(name)))
    else match lookup
      case Invalid(error) => Raised(NonApi(error, ""))
      case Filter(matches) =>
        var matching := Keep(queryset.rows, matches);
        if |matching| == 1 then Found(matching[0])
        else if |matching| == 0 then Raised(Http400Exc(None))
        else Raised(NonApi("MultipleObjectsReturned", ""))
  }

  /** Only a missing object becomes `Http400`: every other way `get` can fail keeps its
      own exception. */
  lemma OnlyDoesNotExistIsConverted<T(!new)>(klass: Source<T>, lookup: Lookup<T>)
    requires lookup.Invalid? ==> lookup.error in {"TypeError", "ValueError", "ValidationError"}
    ensures GetObjectOr400(klass, lookup) == Raised(Http400Exc(None)) <==>
      klass.HasGet() && lookup.Filter? && Keep(klass.rows, lookup.matches) == []
  {
  }

  /** The lookup naming every column of one row, as `get(user=..., recipe=...)` does for
      a link table. */
  function Equals<T(==,!new)>(x: T): (lookup: Lookup<T>)
    ensures lookup.Filter? && forall y :: lookup.matches(y) <==> y == x
  {
    Filter((y: T) => y == x)
  }

  /** In a table with unique rows, looking up one row by all its columns finds it when it
      is there and raises `Http400` when it is not. */
  lemma LookupUniqueRow<T(!new)>(rows: seq<T>, x: T)
    requires NoDuplicates(rows)
    ensures GetObjectOr400(ModelClass(rows), Equals(x)) ==
      if x in rows then Found(x) else Raised(Http400Exc(None))
  {
    KeepEqual(rows, x);
  }
}
