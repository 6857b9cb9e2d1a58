/** The parts of an HTTP request the core looks at: the method and who is asking. */
module Http {

  datatype Method = GET | HEAD | OPTIONS | POST | PUT | PATCH | DELETE

  /** The REST framework's SAFE_METHODS: GET, HEAD and OPTIONS. */
  predicate IsSafe(m: Method) {
    m == GET || m == HEAD || m == OPTIONS
  }

  /** `request.user`: the anonymous user or an account, identified by its primary key.
      Every account that authenticates is active and `is_authenticated`. */
  datatype Requester = Anonymous | Account(id: nat) {
    predicate IsAuthenticated() { Account? }
  }

  const HTTP_200_OK := 200
  const HTTP_201_CREATED := 201
  const HTTP_204_NO_CONTENT := 204
  const HTTP_400_BAD_REQUEST := 400
  const HTTP_401_UNAUTHORIZED := 401
  const HTTP_403_FORBIDDEN := 403
  const HTTP_404_NOT_FOUND := 404
  const HTTP_500_INTERNAL_SERVER_ERROR := 500
}
