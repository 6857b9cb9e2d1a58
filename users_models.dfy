/** The user table, subscriptions, and the checks the user manager applies before saving. */
module UsersModels {

  import opened Wrappers
  import opened AppModels

  /** A saved user; `password` holds the hash `set_password` stored. */
  datatype UserRow = UserRow(
    email: string, username: string, firstName: string, lastName: string, password: string,
    isStaff: bool, isSuperuser: bool, isActive: bool)

  /** A subscription of `user` to the recipes of `author`. */
  datatype Subscription = Subscription(user: UserId, author: UserId)

  /** A Python value passed in `**extra_fields`. */
  datatype PyValue = PyBool(b: bool) | PyInt(i: int) | PyStr(s: string) | PyNone

  /** What a `BooleanField` makes of a value when its row is saved. */
  datatype Prepared = Stored(b: bool) | NullColumn | Invalid

  /** `BooleanField.get_prep_value`: `None` goes to the database as NULL; anything else
      goes through `to_python`, which takes the booleans, 1 and 0, and the strings "t",
      "True", "1", "f", "False" and "0", and raises `ValidationError` for every other value. */
  function PrepareBoolean(v: PyValue): (p: Prepared)
    ensures p == NullColumn <==> v == PyNone
    ensures p == Stored(true) <==> v == PyBool(true) || v == PyInt(1) || v == PyStr("t") || v == PyStr("True") || v == PyStr("1")
    ensures p == Stored(false) <==> v == PyBool(false) || v == PyInt(0) || v == PyStr("f") || v == PyStr("False") || v == PyStr("0")
  {
    match v
    case PyNone => NullColumn
    case PyBool(b) => Stored(b)
    case PyInt(i) => if i == 1 then Stored(true) else if i == 0 then Stored(false) else Invalid
    case PyStr(s) =>
      if s in {"t", "True", "1"} then Stored(true)
      else if s in {"f", "False", "0"} then Stored(false)
      else Invalid
  }

  /** A stored flag read back and saved again keeps its value, and the strings `str()`
      makes of the two booleans convert back to them. */
  lemma PrepareBooleanRoundTrip(b: bool)
    ensures PrepareBoolean(PyBool(b)) == Stored(b)
    ensures PrepareBoolean(PyStr(if b then "True" else "False")) == Stored(b)
  {
  }

  type ExtraFields = map<string, PyValue>

  /** `username` and `email` are each unique. */
  ghost predicate UsersUnique(users: map<UserId, UserRow>) {
    forall a, b :: a in users && b in users && a != b ==>
      users[a].username != users[b].username && users[a].email != users[b].email
  }

  const EmailRequired := "Необходимо предоставить Email"
  const PasswordRequired := "Необходимо предоставить пароль"
  const FirstNameRequired := "Необходимо предоставить имя"
  const LastNameRequired := "Необходимо предоставить фамилию"
  const UsernameRequired := "Необходимо предоставить никнейм"

  /** The messages of the required-field checks, in the order they are made. */
  const RequiredMessages := [EmailRequired, PasswordRequired, FirstNameRequired, LastNameRequired, UsernameRequired]

  /** The `ValueError` message `create_user` raises, if any: the message of the first empty
      field among email, password, first name, last name and username. */
  function RequiredFieldsError(email: string, password: string, firstName: string, lastName: string, username: string)
    : (error: Option<string>)
    ensures var vs := [email, password, firstName, lastName, username];
      && (error.None? <==> forall k :: 0 <= k < 5 ==> vs[k] != "")
      && (error.Some? ==> exists k :: 0 <= k < 5 && vs[k] == "" && error.value == RequiredMessages[k] &&
                                      forall j :: 0 <= j < k ==> vs[j] != "")
  {
    var vs := [email, password, firstName, lastName, username];
    assert vs[0] == email && vs[1] == password && vs[2] == firstName && vs[3] == lastName && vs[4] == username;
    if email == "" then Some(EmailRequired)
    else if password == "" then Some(PasswordRequired)
    else if firstName == "" then Some(FirstNameRequired)
    else if lastName == "" then Some(LastNameRequired)
    else if username == "" then Some(UsernameRequired)
    else None
  }

  /** `dict.setdefault(key, value)`: the entry is added only when the key is absent. */
  function SetDefault(extra: ExtraFields, key: string, value: PyValue): (r: ExtraFields)
    ensures r.Keys == extra.Keys + {key}
    ensures r[key] == if key in extra then extra[key] else value
    ensures forall k :: k in extra ==> r[k] == extra[k]
  {
    if key in extra then extra else extra[key := value]
  }

  /** The two `is not True` checks of `create_superuser`: only the boolean `True` passes. */
  function SuperuserFlagsError(extra: ExtraFields): (error: Option<string>)
    ensures error.None? <==> "is_staff" in extra && extra["is_staff"] == PyBool(true) && "is_superuser" in extra && extra["is_superuser"] == PyBool(true)
  {
    if Get(extra, "is_staff") != Some(PyBool(true)) then Some("Superuser must have is_staff=True.")
    else if Get(extra, "is_superuser") != Some(PyBool(true)) then Some("Superuser must have is_superuser=True.")
    else None
  }

  /** `dict.get(key)`. */
  function Get(extra: ExtraFields, key: string): Option<PyValue> {
    if key in extra then Some(extra[key]) else None
  }

  /** What the flag column `key` gets from `extra_fields`, or its field default. */
  function Flag(extra: ExtraFields, key: string, default: bool): (p: Prepared)
    ensures key !in extra ==> p == Stored(default)
    ensures key in extra ==> p == PrepareBoolean(extra[key])
  {
    if key in extra then PrepareBoolean(extra[key]) else Stored(default)
  }
}
