/** `CustomUserManager`: the ordered required-field checks and flag defaults applied before
    a user row is written. `normalize_email` and `set_password` hashing are opaque
    functions passed in. */
module UserManager {

  import opened Wrappers
  import opened AppModels
  import opened UsersModels
  import opened Database

  /** What `create_user` and `create_superuser` can raise. */
  datatype ManagerError = ValueError(message: string) | ValidationError(field: string) | Db(error: DbError)

  const StaffRequired := "Superuser must have is_staff=True."
  const SuperuserRequired := "Superuser must have is_superuser=True."

  /** The explicit flags `create_superuser` accepts: `is_staff` and `is_superuser` absent
      or the boolean true. */
  predicate FlagsAccepted(extra: ExtraFields) {
    && ("is_staff" !in extra || extra["is_staff"] == PyBool(true))
    && ("is_superuser" !in extra || extra["is_superuser"] == PyBool(true))
  }

  /** The row `user.save()` writes, or what it raises. Before the insert is sent, each
      flag column is prepared in field order (`is_superuser`, `is_staff`, `is_active`), and
      the first value `to_python` refuses raises `ValidationError`; a `None` flag becomes
      NULL, which the NOT NULL column refuses with an integrity error. */
  function NewUser(email: string, password: string, firstName: string, lastName: string, username: string,
                   extra: ExtraFields, normalizeEmail: string -> string, hash: string -> string): (r: Result<UserRow, ManagerError>)
    ensures var su, staff, active := Flag(extra, "is_superuser", false), Flag(extra, "is_staff", false), Flag(extra, "is_active", true);
      && (r.Ok? <==> su.Stored? && staff.Stored? && active.Stored?)
      && (su == Invalid ==> r == Err(ValidationError("is_superuser")))
      && (su != Invalid && staff == Invalid ==> r == Err(ValidationError("is_staff")))
      && (su != Invalid && staff != Invalid && active == Invalid ==> r == Err(ValidationError("is_active")))
      && (su != Invalid && staff != Invalid && active != Invalid && r.Err? ==> r == Err(Db(IntegrityError)))
    ensures r.Ok? ==>
      && r.value.email == normalizeEmail(email) && r.value.password == hash(password)
      && r.value.firstName == firstName && r.value.lastName == lastName && r.value.username == username
      && r.value.isSuperuser == ("is_superuser" in extra && PrepareBoolean(extra["is_superuser"]) == Stored(true))
      && r.value.isStaff == ("is_staff" in extra && PrepareBoolean(extra["is_staff"]) == Stored(true))
      && r.value.isActive == ("is_active" !in extra || PrepareBoolean(extra["is_active"]) == Stored(true))
  {
    var su, staff, active := Flag(extra, "is_superuser", false), Flag(extra, "is_staff", false), Flag(extra, "is_active", true);
    if su == Invalid then Err(ValidationError("is_superuser"))
    else if staff == Invalid then Err(ValidationError("is_staff"))
    else if active == Invalid then Err(ValidationError("is_active"))
    else if su == NullColumn || staff == NullColumn || active == NullColumn then Err(Db(IntegrityError))
    else Ok(UserRow(normalizeEmail(email), username, firstName, lastName, hash(password), staff.b, su.b, active.b))
  }

  /** `create_user`: a missing field raises `ValueError` and writes nothing; a flag `save`
      cannot store raises its error and writes nothing; otherwise exactly one user is
      added, unless its username or email is taken. */
  method CreateUser(db: Db, email: string, password: string, firstName: string, lastName: string, username: string,
                    extra: ExtraFields, normalizeEmail: string -> string, hash: string -> string)
    returns (res: Result<UserId, ManagerError>)
    requires db.Valid()
    modifies db`users, db`nextId
    ensures db.Valid()
    ensures var missing := RequiredFieldsError(email, password, firstName, lastName, username);
      missing.Some? ==> res == Err(ValueError(missing.value)) && db.users == old(db.users)
    ensures var row := NewUser(email, password, firstName, lastName, username, extra, normalizeEmail, hash);
      RequiredFieldsError(email, password, firstName, lastName, username).None? && row.Err? ==>
        res == Err(row.error) && db.users == old(db.users)
    ensures var row := NewUser(email, password, firstName, lastName, username, extra, normalizeEmail, hash);
      RequiredFieldsError(email, password, firstName, lastName, username).None? && row.Ok? ==>
        && (res.Ok? <==> forall u :: u in old(db.users) ==>
              old(db.users)[u].username != row.value.username && old(db.users)[u].email != row.value.email)
        && (res.Ok? ==> res.value !in old(db.users) && db.users == old(db.users)[res.value := row.value])
        && (res.Err? ==> res == Err(Db(IntegrityError)) && db.users == old(db.users))
    ensures res.Ok? ==> |db.users| == |old(db.users)| + 1
    ensures res.Err? ==> |db.users| == |old(db.users)|
  {
    var missing := RequiredFieldsError(email, password, firstName, lastName, username);
    if missing.Some? {
      return Err(ValueError(missing.value));
    }
    var row := NewUser(email, password, firstName, lastName, username, extra, normalizeEmail, hash);
    if row.Err? {
      return Err(row.error);
    }
    var saved := db.CreateUser(row.value);
    if saved.Err? {
      return Err(Db(saved.error));
    }
    return Ok(saved.value);
  }

  /** `create_superuser`: `is_staff`, `is_superuser` and `is_active` default to true, an
      explicit `is_staff` or `is_superuser` other than the boolean true is refused, and the
      rest is `create_user`. */
  method CreateSuperuser(db: Db, email: string, password: string, firstName: string, lastName: string, username: string,
                         extra: ExtraFields, normalizeEmail: string -> string, hash: string -> string)
    returns (res: Result<UserId, ManagerError>)
    requires db.Valid()
    modifies db`users, db`nextId
    ensures db.Valid()
    ensures "is_staff" in extra && extra["is_staff"] != PyBool(true) ==>
      res == Err(ValueError(StaffRequired)) && db.users == old(db.users)
    ensures ("is_staff" !in extra || extra["is_staff"] == PyBool(true)) &&
            "is_superuser" in extra && extra["is_superuser"] != PyBool(true) ==>
      res == Err(ValueError(SuperuserRequired)) && db.users == old(db.users)
    ensures var missing := RequiredFieldsError(email, password, firstName, lastName, username);
      FlagsAccepted(extra) && missing.Some? ==> res == Err(ValueError(missing.value))
    ensures FlagsAccepted(extra) && RequiredFieldsError(email, password, firstName, lastName, username).None? &&
            "is_active" in extra && PrepareBoolean(extra["is_active"]) == Invalid ==>
      res == Err(ValidationError("is_active")) && db.users == old(db.users)
    ensures FlagsAccepted(extra) && RequiredFieldsError(email, password, firstName, lastName, username).None? &&
            "is_active" in extra && extra["is_active"] == PyNone ==>
      res == Err(Db(IntegrityError)) && db.users == old(db.users)
    ensures res.Ok? ==> FlagsAccepted(extra) && RequiredFieldsError(email, password, firstName, lastName, username).None?
    ensures FlagsAccepted(extra) && RequiredFieldsError(email, password, firstName, lastName, username).None? &&
            ("is_active" !in extra || PrepareBoolean(extra["is_active"]).Stored?) ==>
      && (res.Ok? <==> forall u :: u in old(db.users) ==>
            old(db.users)[u].username != username && old(db.users)[u].email != normalizeEmail(email))
      && (res.Err? ==> res == Err(Db(IntegrityError)))
    ensures res.Ok? ==>
      && res.value !in old(db.users) && res.value in db.users
      && db.users == old(db.users)[res.value := db.users[res.value]]
      && var row := db.users[res.value];
      && row.isStaff && row.isSuperuser
      && (row.isActive <==> "is_active" !in extra || PrepareBoolean(extra["is_active"]) == Stored(true))
      && row.email == normalizeEmail(email) && row.password == hash(password)
      && row.firstName == firstName && row.lastName == lastName && row.username == username
    ensures res.Err? ==> db.users == old(db.users)
  {
    var flags := extra;
    flags := SetDefault(flags, "is_staff", PyBool(true));
    flags := SetDefault(flags, "is_superuser", PyBool(true));
    flags := SetDefault(flags, "is_active", PyBool(true));
    if Get(flags, "is_staff") != Some(PyBool(true)) {
      return Err(ValueError(StaffRequired));
    }
    if Get(flags, "is_superuser") != Some(PyBool(true)) {
      return Err(ValueError(SuperuserRequired));
    }
    SuperuserRow(email, password, firstName, lastName, username, extra, flags, normalizeEmail, hash);
    res := CreateUser(db, email, password, firstName, lastName, username, flags, normalizeEmail, hash);
  }

  /** The row `create_user` builds from the defaulted flags of an accepted superuser: staff
      and superuser, and `is_active` as given or true. */
  lemma SuperuserRow(email: string, password: string, firstName: string, lastName: string, username: string,
                     extra: ExtraFields, flags: ExtraFields, normalizeEmail: string -> string, hash: string -> string)
    requires FlagsAccepted(extra)
    requires flags == SetDefault(SetDefault(SetDefault(extra, "is_staff", PyBool(true)), "is_superuser", PyBool(true)), "is_active", PyBool(true))
    ensures var row := NewUser(email, password, firstName, lastName, username, flags, normalizeEmail, hash);
      && (row.Ok? <==> "is_active" !in extra || PrepareBoolean(extra["is_active"]).Stored?)
      && ("is_active" in extra && PrepareBoolean(extra["is_active"]) == Invalid ==> row == Err(ValidationError("is_active")))
      && ("is_active" in extra && extra["is_active"] == PyNone ==> row == Err(Db(IntegrityError)))
      && (row.Ok? ==>
            && row.value.isStaff && row.value.isSuperuser
            && (row.value.isActive <==> "is_active" !in extra || PrepareBoolean(extra["is_active"]) == Stored(true))
            && row.value.email == normalizeEmail(email) && row.value.password == hash(password)
            && row.value.firstName == firstName && row.value.lastName == lastName && row.value.username == username)
  {
    assert flags["is_staff"] == PyBool(true) && flags["is_superuser"] == PyBool(true);
    assert flags["is_active"] == if "is_active" in extra then extra["is_active"] else PyBool(true);
  }
}
