/** API-key validation: which token a request supplies, and which stored keys accept it. */
module Auth {
  import opened Values
  import opened Models

  /** What a handler reads from an HTTP request: the value of the `X-API-Key` header (header
      names match whatever their case, so this is the value under any spelling) and the
      query parameters (for a repeated parameter, the value `request.GET.get` returns). */
  datatype Request = Request(apiKeyHeader: Option<string>, query: map<string, string>)

  /** `request.GET.get(name)`. */
  function Param(req: Request, name: string): Option<string>
  {
    if name in req.query then Some(req.query[name]) else None
  }

  predicate Supplied(v: Option<string>)
  {
    v.Some? && v.value != ""
  }

  /** `request.headers.get('X-API-Key') or request.GET.get('api_key')`, kept only when it is
      truthy: a non-empty header wins, the query parameter is used only when the header is
      absent or empty, and an empty token counts as none. */
  function SuppliedToken(req: Request): (t: Option<string>)
    ensures Supplied(req.apiKeyHeader) ==> t == req.apiKeyHeader
    ensures !Supplied(req.apiKeyHeader) ==> t == Param(req, "api_key") || t.None?
    ensures t.None? <==> !Supplied(req.apiKeyHeader) && !Supplied(Param(req, "api_key"))
    ensures t.Some? ==> t.value != ""
  {
    if Supplied(req.apiKeyHeader) then req.apiKeyHeader
    else if Supplied(Param(req, "api_key")) then Param(req, "api_key")
    else None
  }

  /** `validate_api_key(request)`: the stored key whose token is the supplied one, provided it
      is active; None when no token is supplied, when no key has that token, or when the key
      is inactive. No case raises. */
  function ValidateApiKey(req: Request, keys: map<string, ApiKeyRow>): (r: Option<ApiKeyRow>)
    ensures r.Some? <==> SuppliedToken(req).Some? && SuppliedToken(req).value in keys
                         && keys[SuppliedToken(req).value].isActive
    ensures r.Some? ==> r.value == keys[SuppliedToken(req).value]
  {
    var token := SuppliedToken(req);
    if token.Some? && token.value in keys && keys[token.value].isActive then Some(keys[token.value])
    else None
  }

  /** In a table whose keys are stored under their own tokens, an accepted key is active,
      carries exactly the supplied token, and that token came from the header when the
      header was non-empty. */
  lemma AcceptedKeyMatchesToken(req: Request, keys: map<string, ApiKeyRow>)
    requires KeysKeyedByToken(keys)
    requires ValidateApiKey(req, keys).Some?
    ensures var k := ValidateApiKey(req, keys).value;
      && k.isActive
      && k.key in keys && keys[k.key] == k
      && (Supplied(req.apiKeyHeader) ==> Some(k.key) == req.apiKeyHeader)
      && (!Supplied(req.apiKeyHeader) ==> Some(k.key) == Param(req, "api_key"))
  {
  }

  /** With a non-empty header the query parameters play no part. */
  lemma HeaderTakesPrecedence(req: Request, query: map<string, string>, keys: map<string, ApiKeyRow>)
    requires Supplied(req.apiKeyHeader)
    ensures ValidateApiKey(req.(query := query), keys) == ValidateApiKey(req, keys)
  {
  }

  /** Without a non-empty header, the outcome is that of a request carrying no header. */
  lemma QueryUsedWithoutHeader(req: Request, keys: map<string, ApiKeyRow>)
    requires !Supplied(req.apiKeyHeader)
    ensures ValidateApiKey(req, keys) == ValidateApiKey(Request(None, req.query), keys)
  {
  }

  /** Deactivating a key makes every request carrying its token fail, whichever way the token
      was supplied, while every other token keeps its outcome. */
  lemma DeactivationRevokes(req: Request, keys: map<string, ApiKeyRow>, token: string)
    requires token in keys
    ensures var after := keys[token := keys[token].(isActive := false)];
      && (SuppliedToken(req) == Some(token) ==> ValidateApiKey(req, after).None?)
      && (SuppliedToken(req) != Some(token) ==> ValidateApiKey(req, after) == ValidateApiKey(req, keys))
  {
  }
}
