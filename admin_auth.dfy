/** The admin token held in module-level state by js/api.js, and the rule by
    which requests carry it as a `Bearer` credential. */
module AdminAuth {
  import opened Values

  /** The parts of the login response `adminLoginAPI` reads. */
  datatype LoginResult = LoginResult(success: bool, token: Option<string>)

  /** The requests js/api.js issues, one per exported API function. */
  datatype Request =
    | PostLogin              // adminLoginAPI
    | PostChangeCredentials  // changeAdminCredentialsAPI
    | GetStocks              // fetchStocks
    | PostStocks             // setStocksAPI
    | GetOrders              // fetchOrders
    | PostOrder              // addOrderAPI
    | DeleteOrder            // deleteOrderAPI
    | GetProducts            // fetchProducts
    | PostProduct            // saveProductAPI
    | DeleteProduct          // deleteProductAPI

  /** Requests that attach the credential only when a token is held. */
  predicate CredentialIfHeld(req: Request) {
    req.PostStocks? || req.DeleteOrder? || req.PostProduct? || req.DeleteProduct?
  }

  /** Requests that send a JSON body. */
  predicate SendsJson(req: Request) {
    req.PostLogin? || req.PostChangeCredentials? || req.PostStocks? || req.PostOrder? || req.PostProduct?
  }

  const Json := map["Content-Type" := "application/json"]

  class AdminSession {
    /** `adminToken`; '' when no admin is logged in. */
    var token: string

    /** Line 5: the token starts as the persisted one, or '' when none is stored. */
    constructor (stored: Option<string>)
      ensures token == if stored.Some? then stored.value else ""
    {
      token := if stored.Some? then stored.value else "";
    }

    /** `setAdminToken`. */
    method SetAdminToken(t: string)
      modifies this
      ensures token == t
    {
      token := t;
    }

    /** `clearAdminToken`. */
    method ClearAdminToken()
      modifies this
      ensures token == ""
    {
      token := "";
    }

    /** `adminLoginAPI` after its response arrived: the token changes only
        when the response reports success and carries a non-empty token; the
        response is returned unchanged. */
    method AdminLogin(result: LoginResult) returns (r: LoginResult)
      modifies this
      ensures r == result
      ensures result.success && IsSet(result.token) ==> token == result.token.value
      ensures !(result.success && IsSet(result.token)) ==> token == old(token)
    {
      if result.success && IsSet(result.token) {
        SetAdminToken(result.token.value);
      }
      r := result;
    }

    /** The headers each request sends. The credential is attached exactly
        when a token is held on the four guarded requests, always on a
        credential change (as `Bearer ` alone when the token is ''), and
        never otherwise. */
    function Headers(req: Request): (h: map<string, string>)
      reads this
      ensures "Authorization" in h <==> req.PostChangeCredentials? || (CredentialIfHeld(req) && token != "")
      ensures "Authorization" in h ==> h["Authorization"] == "Bearer " + token
      ensures "Content-Type" in h <==> SendsJson(req)
      ensures "Content-Type" in h ==> h["Content-Type"] == "application/json"
      ensures h.Keys <= {"Authorization", "Content-Type"}
    {
      var bearer := map["Authorization" := "Bearer " + token];
      var ifHeld := if token != "" then bearer else map[];
      match req
      case PostLogin => Json
      case PostChangeCredentials => Json + bearer
      case GetStocks => map[]
      case PostStocks => Json + ifHeld
      case GetOrders => map[]
      case PostOrder => Json
      case DeleteOrder => ifHeld
      case GetProducts => map[]
      case PostProduct => Json + ifHeld
      case DeleteProduct => ifHeld
    }
  }
}
