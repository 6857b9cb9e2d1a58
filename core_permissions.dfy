/** `IsAuthorIsAuthenticatedOrReadOnly`: anyone may read; writing needs an authenticated
    user, and writing to an object needs its author. */
module Permissions {

  import opened Wrappers
  import opened Http

  /** `has_permission`. `user` is `request.user`, `None` when it is Python's `None`. */
  function HasPermission(m: Method, user: Option<Requester>): (allowed: bool)
    ensures IsSafe(m) ==> allowed
    ensures !IsSafe(m) ==> (allowed <==> user.Some? && user.value.IsAuthenticated())
  {
    IsSafe(m) || (user.Some? && user.value.IsAuthenticated())
  }

  /** `has_object_permission` for an object whose author has primary key `author`. The
      expression is `safe or (request.user and obj.author == request.user)`: no
      authentication check, only the comparison with the author. */
  function HasObjectPermission(m: Method, user: Option<Requester>, author: nat): (allowed: bool)
    ensures IsSafe(m) ==> allowed
    ensures !IsSafe(m) ==> (allowed <==> user == Some(Account(author)))
  {
    IsSafe(m) || (user.Some? && user.value == Account(author))
  }

  /** Whoever may change an object may also make unsafe requests at all. */
  lemma ObjectPermissionImpliesPermission(m: Method, user: Option<Requester>, author: nat)
    ensures HasObjectPermission(m, user, author) ==> HasPermission(m, user)
  {
  }

  /** The anonymous user (or no user) can only read. */
  lemma AnonymousOnlyReads(m: Method, user: Option<Requester>, author: nat)
    requires user == None || user == Some(Anonymous)
    ensures HasPermission(m, user) <==> IsSafe(m)
    ensures HasObjectPermission(m, user, author) <==> IsSafe(m)
  {
  }
}
