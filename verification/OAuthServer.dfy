/** The authorization server over the credential authority: what each request does to the pending codes, the
    clients and the credentials, and what it answers. One request is one step, taken once its body is read. */
module OAuthServer {
  import opened CredentialAuthority
  import opened Optional
  import opened Sequences

  const SCOPES: seq<Scope> := ["acp"]
  const OPERATOR_CLIENT: ClientId := "operator"
  const OPERATOR_SUBJECT := "operator"
  const BROWSER: ClientId := "browser"
  const CODE_TTL_MS := 60_000
  const MAX_REGISTERED_CLIENTS := 1_000

  datatype ClientKind = Public | Declared | Module

  datatype Client = Client(id: ClientId, kind: ClientKind, secret: string, scopes: seq<Scope>)

  /** The configuration: the clients the daemon's modules registered with the authority, the operator's
      password and the lifetimes. */
  datatype Options = Options(modules: map<ClientId, Client>, password: string, accessTtlMs: int, refreshTtlMs: int)

  datatype Server = Server(auth: Authority, codes: map<Token, Code>, clients: map<ClientId, Client>, registered: nat)

  datatype Error =
    | InvalidRequest | InvalidClient | InvalidGrant | InvalidScope | InvalidTarget | UnauthorizedClient
    | UnsupportedGrantType | UnsupportedResponseType | AccessDenied | InvalidMetadata | InvalidRedirectUri | ServerError

  datatype Reply =
    | Page(status: nat)
    | Redirected(error: Error)
    | CodeSent(code: Token)
    | TokensSent(access: Token, refresh: Option<Token>, scopes: seq<Scope>)
    | Refused(error: Error)
    | Registered(id: ClientId)
    | Done

  /** The random values a step may use up. */
  datatype Nonces = Nonces(first: Token, second: Token, family: Family, session: Family)

  /** An authorization request. `challenge` is None unless it is an S256 challenge in form; `redirectRegistered`
      and `resourceKnown` are the outcomes of the address checks. */
  datatype AuthorizeRequest = AuthorizeRequest(
    clientId: ClientId, redirectUri: Option<string>, redirectRegistered: bool, isPost: bool, codeResponse: bool,
    challenge: Option<string>, scope: Option<seq<Scope>>, resourceKnown: bool, cookie: Option<Token>,
    consent: Option<string>, password: Option<string>)

  /** `verifierHash` is the S256 hash of a verifier in form, None for any other. */
  datatype Grant =
    | AuthorizationCode(code: Token, verifierHash: Option<string>, redirectUri: Option<string>)
    | RefreshToken(presented: Token)
    | ClientCredentials
    | OtherGrant

  datatype TokenRequest = TokenRequest(
    clientId: Option<ClientId>, secret: Option<string>, grant: Grant, scope: Option<seq<Scope>>, resourceKnown: bool)

  /** A member of the registration metadata that should be a list. */
  datatype Listing<T> = Absent | NoList | Listed(items: seq<T>)

  /** The body of a registration, None unless it is a JSON object. `redirectUris` says of each address whether it is an
      absolute http(s) URL without a fragment; members of the other lists that are no strings count as any other string. */
  datatype Metadata = Metadata(redirectUris: Listing<bool>, authMethod: Option<string>, grantTypes: Listing<string>,
    responseTypes: Listing<string>, scope: Option<seq<Scope>>)

  // ----- clients and scopes -----

  datatype Lookup = Unknown | Faulty | Found(client: Client)

  function LookupClient(o: Options, s: Server, id: ClientId): Lookup {
    if id in o.modules then
      if Within(o.modules[id].scopes, SCOPES) then Found(o.modules[id]) else Faulty
    else if id in s.clients then Found(s.clients[id])
    else Unknown
  }

  predicate Within(scopes: seq<Scope>, allowed: seq<Scope>) {
    forall x :: x in scopes ==> x in allowed
  }

  /** The scopes a request gets: all it may have when it names none, what it names when all of that is allowed. */
  function GrantedScopes(requested: Option<seq<Scope>>, allowed: seq<Scope>): (r: Option<seq<Scope>>)
    ensures r.Some? ==> Within(r.value, allowed)
    ensures r.None? <==> requested.Some? && !Within(requested.value, allowed)
  {
    if requested.None? || requested.value == [] then Some(allowed)
    else
      var scopes := Distinct(requested.value);
      if Within(scopes, allowed) then Some(scopes) else None
  }

  function AuthenticateClient(o: Options, s: Server, id: Option<ClientId>, secret: Option<string>): Lookup {
    if id.None? || id.value == "" then Unknown
    else
      match LookupClient(o, s, id.value)
      case Found(client) =>
        if client.kind == Public then
          if secret.Some? && secret.value != "" then Unknown else Found(client)
        else if secret == Some(client.secret) then Found(client) else Unknown
      case other => other
  }

  function AuthenticationError(l: Lookup): Error
    requires !l.Found?
  {
    if l.Faulty? then ServerError else InvalidClient
  }

  // ----- revocation, with the listener that ends pending codes -----

  function RevokeGrants(s: Server, family: Family): Server {
    s.(auth := RevokeFamily(s.auth, family),
       codes := map c | c in s.codes && s.codes[c].family != family :: s.codes[c])
  }

  function SessionOf(s: Server, cookie: Option<Token>, now: int): Option<Claims> {
    if cookie.None? then None
    else
      match Verified(s.auth, cookie.value, now)
      case Some(claims) => if claims.kind == Session then Some(claims) else None
      case None => None
  }

  function AfterLookup(s: Server, token: Option<Token>, now: int): Server {
    if token.None? then s else s.(auth := AfterVerify(s.auth, token.value, now))
  }

  // ----- authorization -----

  /** The operator's session claims after signing in. */
  function SignInClaims(o: Options, now: int, nonces: Nonces): Claims {
    Claims(Session, OPERATOR_SUBJECT, BROWSER, SCOPES, nonces.session, now + o.refreshTtlMs)
  }

  function SignIn(o: Options, s: Server, now: int, nonces: Nonces): Server {
    s.(auth := Issue(s.auth, SignInClaims(o, now, nonces), now, nonces.second, FromSignIn))
  }

  function GrantFor(client: Client, redirectUri: string, challenge: string, scopes: seq<Scope>, session: Family,
      now: int, nonces: Nonces): Code {
    Code(client.id, redirectUri, challenge, scopes, if client.kind == Module then session else nonces.family, now + CODE_TTL_MS)
  }

  /** Issues a code: a module's client joins the sign-in's family, any other gets a family of its own. */
  function IssueCode(s: Server, client: Client, grant: Code, session: Family, now: int, nonces: Nonces): Server {
    var swept := map c | c in s.codes && s.codes[c].expiresAt > now :: s.codes[c];
    s.(codes := swept[nonces.first := grant],
       auth := Record(s.auth, Granted(nonces.first, grant, client.scopes, session, client.kind == Module)))
  }

  function Authorize(o: Options, s: Server, r: AuthorizeRequest, now: int, nonces: Nonces): (Server, Reply) {
    match LookupClient(o, s, r.clientId)
    case Faulty => (s, Refused(ServerError))
    case Unknown => (s, Page(400))
    case Found(client) =>
      if r.redirectUri.None? || !r.redirectRegistered then (s, Page(400))
      else if !r.codeResponse then (s, Redirected(UnsupportedResponseType))
      else if r.challenge.None? then (s, Redirected(InvalidRequest))
      else
        match GrantedScopes(r.scope, client.scopes)
        case None => (s, Redirected(InvalidScope))
        case Some(scopes) =>
          if !r.resourceKnown then (s, Redirected(InvalidTarget))
          else
            var s1 := AfterLookup(s, r.cookie, now);
            match SessionOf(s, r.cookie, now)
            case Some(session) =>
              var grant := GrantFor(client, r.redirectUri.value, r.challenge.value, scopes, session.family, now, nonces);
              var decision := if r.isPost then r.consent else None;
              if client.kind == Module || decision == Some("allow") then
                (IssueCode(s1, client, grant, session.family, now, nonces), CodeSent(nonces.first))
              else if decision == Some("deny") then (s1, Redirected(AccessDenied))
              else (s1, Page(200))
            case None =>
              if o.password == "" then (s1, Page(503))
              else if !r.isPost || r.password.None? then (s1, Page(200))
              else if r.password.value != o.password then (s1, Page(401))
              else
                var s2 := SignIn(o, s1, now, nonces);
                var grant := GrantFor(client, r.redirectUri.value, r.challenge.value, scopes, nonces.session, now, nonces);
                (IssueCode(s2, client, grant, nonces.session, now, nonces), CodeSent(nonces.first))
  }

  // ----- tokens -----

  /** What the token endpoint has decided to issue, before the resource check. */
  datatype Decision =
    | Deny(error: Error)
    | Accept(subject: string, clientId: ClientId, scopes: seq<Scope>, family: Family, refresh: bool, source: Source)

  function RedeemCode(s: Server, client: Client, g: Grant, now: int): (Server, Decision)
    requires g.AuthorizationCode?
  {
    var s1 := s.(codes := s.codes - {g.code});
    if g.code !in s.codes || s.codes[g.code].expiresAt <= now then (s1, Deny(InvalidGrant))
    else
      var code := s.codes[g.code];
      if code.clientId != client.id then (RevokeGrants(s1, code.family), Deny(InvalidGrant))
      else if g.verifierHash != Some(code.challenge) then (s1, Deny(InvalidGrant))
      else if g.redirectUri != Some(code.redirectUri) then (s1, Deny(InvalidGrant))
      else (s1, Accept(OPERATOR_SUBJECT, client.id, code.scopes, code.family, true, FromCode(g.code)))
  }

  /** Consumes a token; a reuse ends its family, pending codes included. */
  function ConsumeToken(s: Server, token: Token, now: int): Server {
    match ConsumeOutcome(s.auth, token, now)
    case NotConsumed(Some(family)) => RevokeGrants(s.(auth := AfterVerify(s.auth, token, now)), family)
    case _ => s.(auth := AfterConsume(s.auth, token, now))
  }

  function RedeemRefresh(s: Server, client: Client, presented: Token, scope: Option<seq<Scope>>,
      now: int): (Server, Decision) {
    match Verified(s.auth, presented, now)
    case None => (ConsumeToken(s, presented, now), Deny(InvalidGrant))
    case Some(claims) =>
      if claims.kind != Refresh then (ConsumeToken(s, presented, now), Deny(InvalidGrant))
      else if claims.clientId != client.id then (RevokeGrants(s, claims.family), Deny(InvalidGrant))
      else
        match GrantedScopes(scope, claims.scopes)
        case None => (s, Deny(InvalidScope))
        case Some(scopes) =>
          (ConsumeToken(s, presented, now), Accept(claims.subject, client.id, scopes, claims.family, true, FromRefresh(presented)))
  }

  function Decide(s: Server, client: Client, r: TokenRequest, now: int, nonces: Nonces): (Server, Decision) {
    match r.grant
    case AuthorizationCode(_, _, _) => RedeemCode(s, client, r.grant, now)
    case RefreshToken(presented) => RedeemRefresh(s, client, presented, r.scope, now)
    case ClientCredentials =>
      if client.kind != Declared then (s, Deny(UnauthorizedClient))
      else
        (match GrantedScopes(r.scope, client.scopes)
         case None => (s, Deny(InvalidScope))
         case Some(scopes) =>
           (s, Accept(if client.id == OPERATOR_CLIENT then OPERATOR_SUBJECT else client.id, client.id, scopes, nonces.family,
                      false, FromClient(client.scopes))))
    case OtherGrant => (s, Deny(UnsupportedGrantType))
  }

  function ClaimsFor(kind: Kind, d: Decision, expiresAt: int): Claims
    requires d.Accept?
  {
    Claims(kind, d.subject, d.clientId, d.scopes, d.family, expiresAt)
  }

  function IssueTokens(o: Options, s: Server, d: Decision, now: int, nonces: Nonces): Server
    requires d.Accept?
  {
    var s1 := s.(auth := Issue(s.auth, ClaimsFor(Access, d, now + o.accessTtlMs), now, nonces.first, d.source));
    if d.refresh
    then s1.(auth := Issue(s1.auth, ClaimsFor(Refresh, d, now + o.refreshTtlMs), now, nonces.second, d.source))
    else s1
  }

  function Exchange(o: Options, s: Server, r: TokenRequest, now: int, nonces: Nonces): (Server, Reply) {
    match AuthenticateClient(o, s, r.clientId, r.secret)
    case Found(client) =>
      var (s1, d) := Decide(s, client, r, now, nonces);
      if d.Deny? then (s1, Refused(d.error))
      else if !r.resourceKnown then (s1, Refused(InvalidTarget))
      else (IssueTokens(o, s1, d, now, nonces),
            TokensSent(nonces.first, if d.refresh then Some(nonces.second) else None, d.scopes))
    case other => (s, Refused(AuthenticationError(other)))
  }

  // ----- revocation, sign-out, registration -----

  function Revoke(o: Options, s: Server, id: Option<ClientId>, secret: Option<string>, token: Option<Token>,
      now: int): (Server, Reply) {
    match AuthenticateClient(o, s, id, secret)
    case Found(client) =>
      if token.None? then (s, Refused(InvalidRequest))
      else
        var s1 := AfterLookup(s, token, now);
        (match Verified(s.auth, token.value, now)
         case Some(claims) => (if claims.clientId == client.id then RevokeGrants(s1, claims.family) else s1, Done)
         case None => (s1, Done))
    case other => (s, Refused(AuthenticationError(other)))
  }

  function EndSession(s: Server, cookie: Option<Token>, now: int): (Server, Reply) {
    var s1 := AfterLookup(s, cookie, now);
    match SessionOf(s, cookie, now)
    case Some(session) => (RevokeGrants(s1, session.family), Page(200))
    case None => (s1, Page(200))
  }

  predicate OnlyOf(l: Listing<string>, allowed: seq<string>) {
    l.Absent? || (l.Listed? && forall x :: x in l.items ==> x in allowed)
  }

  function MetadataError(m: Metadata): Option<Error> {
    if !m.redirectUris.Listed? || m.redirectUris.items == [] || false in m.redirectUris.items then Some(InvalidRedirectUri)
    else if m.authMethod.Some? && m.authMethod.value != "none" then Some(InvalidMetadata)
    else if !OnlyOf(m.grantTypes, ["authorization_code", "refresh_token"]) then Some(InvalidMetadata)
    else if !OnlyOf(m.responseTypes, ["code"]) then Some(InvalidMetadata)
    else if GrantedScopes(m.scope, SCOPES).None? then Some(InvalidMetadata)
    else None
  }

  /** Registers a public client. */
  function Register(s: Server, metadata: Option<Metadata>, nonces: Nonces): (Server, Reply) {
    if metadata.None? then (s, Refused(InvalidMetadata))
    else
      match MetadataError(metadata.value)
      case Some(error) => (s, Refused(error))
      case None =>
        var scopes := GrantedScopes(metadata.value.scope, SCOPES).value;
        if s.registered >= MAX_REGISTERED_CLIENTS then (s, Refused(InvalidMetadata))
        else (s.(clients := s.clients[nonces.first := Client(nonces.first, Public, "", scopes)], registered := s.registered + 1),
              Registered(nonces.first))
  }

  // ----- the server, in place -----

  class AuthorizationServer {
    const options: Options
    const credentials: Credentials
    var codes: map<Token, Code>
    var clients: map<ClientId, Client>
    var registered: nat

    constructor (options: Options, credentials: Credentials, declared: map<ClientId, Client>)
      ensures this.options == options && this.credentials == credentials
      ensures codes == map[] && clients == declared && registered == 0
    {
      this.options, this.credentials := options, credentials;
      codes, clients, registered := map[], declared, 0;
    }

    ghost function Model(): Server
      reads this, credentials
    {
      Server(credentials.Model(), codes, clients, registered)
    }

    /** The listener: pending codes of a revoked family end with it. */
    method OnRevoked(family: Family)
      modifies `codes
      ensures codes == map c | c in old(codes) && old(codes)[c].family != family :: old(codes)[c]
    {
      var pending := codes.Keys;
      while pending != {}
        invariant pending <= old(codes).Keys
        invariant forall c :: c in codes <==> c in old(codes) && (c in pending || old(codes)[c].family != family)
        invariant forall c :: c in codes ==> codes[c] == old(codes)[c]
      {
        var c :| c in pending;
        if codes[c].family == family {
          codes := codes - {c};
        }
        pending := pending - {c};
      }
    }

    /** Every revocation reaches the listener before anything else happens. */
    method RevokeAndTell(family: Family)
      modifies `codes, credentials
      ensures Model() == RevokeGrants(old(Model()), family)
    {
      credentials.Revoke(family);
      OnRevoked(family);
    }

    method SweepCodes(now: int)
      modifies `codes
      ensures codes == map c | c in old(codes) && old(codes)[c].expiresAt > now :: old(codes)[c]
    {
      var pending := codes.Keys;
      while pending != {}
        invariant pending <= old(codes).Keys
        invariant forall c :: c in codes <==> c in old(codes) && (c in pending || old(codes)[c].expiresAt > now)
        invariant forall c :: c in codes ==> codes[c] == old(codes)[c]
      {
        var c :| c in pending;
        if codes[c].expiresAt <= now {
          codes := codes - {c};
        }
        pending := pending - {c};
      }
    }

    method CurrentSession(cookie: Option<Token>, now: int) returns (session: Option<Claims>)
      modifies credentials
      ensures session == SessionOf(old(Model()), cookie, now)
      ensures Model() == AfterLookup(old(Model()), cookie, now)
    {
      if cookie.None? {
        return None;
      }
      var claims := credentials.Verify(cookie.value, now);
      session := if claims.Some? && claims.value.kind == Session then claims else None;
    }

    method PlaceCode(client: Client, grant: Code, session: Family, now: int, nonces: Nonces)
      modifies `codes, credentials
      ensures Model() == IssueCode(old(Model()), client, grant, session, now, nonces)
    {
      SweepCodes(now);
      codes := codes[nonces.first := grant];
      credentials.log := credentials.log + [Granted(nonces.first, grant, client.scopes, session, client.kind == Module)];
    }

    method HandleAuthorize(r: AuthorizeRequest, now: int, nonces: Nonces) returns (reply: Reply)
      modifies this, credentials
      ensures (Model(), reply) == Authorize(options, old(Model()), r, now, nonces)
    {
      ghost var before := Model();
      var lookup := Lookup(r.clientId);
      if lookup.Faulty? {
        return Refused(ServerError);
      }
      if lookup.Unknown? || r.redirectUri.None? || !r.redirectRegistered {
        return Page(400);
      }
      var client := lookup.client;
      if !r.codeResponse {
        return Redirected(UnsupportedResponseType);
      }
      if r.challenge.None? {
        return Redirected(InvalidRequest);
      }
      var scopes := GrantedScopes(r.scope, client.scopes);
      if scopes.None? {
        return Redirected(InvalidScope);
      }
      if !r.resourceKnown {
        return Redirected(InvalidTarget);
      }
      var session := CurrentSession(r.cookie, now);
      if session.Some? {
        var decision := if r.isPost then r.consent else None;
        if client.kind == Module || decision == Some("allow") {
          var grant := GrantFor(client, r.redirectUri.value, r.challenge.value, scopes.value, session.value.family, now, nonces);
          PlaceCode(client, grant, session.value.family, now, nonces);
          return CodeSent(nonces.first);
        }
        return if decision == Some("deny") then Redirected(AccessDenied) else Page(200);
      }
      if options.password == "" {
        return Page(503);
      }
      if !r.isPost || r.password.None? {
        return Page(200);
      }
      if r.password.value != options.password {
        return Page(401);
      }
      credentials.Enter(SignInClaims(options, now, nonces), now, nonces.second, FromSignIn);
      assert Model() == SignIn(options, AfterLookup(before, r.cookie, now), now, nonces);
      var grant := GrantFor(client, r.redirectUri.value, r.challenge.value, scopes.value, nonces.session, now, nonces);
      PlaceCode(client, grant, nonces.session, now, nonces);
      return CodeSent(nonces.first);
    }

    function Lookup(id: ClientId): (l: Lookup)
      reads this, credentials
      ensures l == LookupClient(options, Model(), id)
    {
      LookupClient(options, Server(Authority(map[], map[], map[], [], 0), map[], clients, 0), id)
    }

    function Authenticated(id: Option<ClientId>, secret: Option<string>): (l: Lookup)
      reads this, credentials
      ensures l == AuthenticateClient(options, Model(), id, secret)
    {
      AuthenticateClient(options, Server(Authority(map[], map[], map[], [], 0), map[], clients, 0), id, secret)
    }

    method HandleCode(client: Client, g: Grant, now: int) returns (d: Decision)
      requires g.AuthorizationCode?
      modifies `codes, credentials
      ensures (Model(), d) == RedeemCode(old(Model()), client, g, now)
    {
      var known := g.code in codes;
      var code := if known then codes[g.code] else Code("", "", "", [], "", now);
      codes := codes - {g.code};
      if !known || code.expiresAt <= now {
        return Deny(InvalidGrant);
      }
      if code.clientId != client.id {
        RevokeAndTell(code.family);
        return Deny(InvalidGrant);
      }
      if g.verifierHash != Some(code.challenge) || g.redirectUri != Some(code.redirectUri) {
        return Deny(InvalidGrant);
      }
      return Accept(OPERATOR_SUBJECT, client.id, code.scopes, code.family, true, FromCode(g.code));
    }

    method ConsumeAndTell(token: Token, now: int) returns (outcome: Consumption)
      modifies `codes, credentials
      ensures outcome == ConsumeOutcome(old(Model()).auth, token, now)
      ensures Model() == ConsumeToken(old(Model()), token, now)
    {
      outcome := credentials.Consume(token, now);
      if outcome.NotConsumed? && outcome.reusedFamily.Some? {
        OnRevoked(outcome.reusedFamily.value);
      }
    }

    method HandleRefresh(client: Client, presented: Token, scope: Option<seq<Scope>>, now: int) returns (d: Decision)
      modifies `codes, credentials
      ensures (Model(), d) == RedeemRefresh(old(Model()), client, presented, scope, now)
    {
      ghost var before := Model();
      var claims := credentials.Verify(presented, now);
      if claims.None? || claims.value.kind != Refresh {
        var outcome := ConsumeAndTell(presented, now);
        VerifiedTwice(before, presented, now);
        return Deny(InvalidGrant);
      }
      if claims.value.clientId != client.id {
        RevokeAndTell(claims.value.family);
        return Deny(InvalidGrant);
      }
      var scopes := GrantedScopes(scope, claims.value.scopes);
      if scopes.None? {
        return Deny(InvalidScope);
      }
      var outcome := ConsumeAndTell(presented, now);
      if !outcome.Consumed? {
        return Deny(InvalidGrant);
      }
      return Accept(claims.value.subject, client.id, scopes.value, claims.value.family, true, FromRefresh(presented));
    }

    method HandleToken(r: TokenRequest, now: int, nonces: Nonces) returns (reply: Reply)
      modifies this, credentials
      ensures (Model(), reply) == Exchange(options, old(Model()), r, now, nonces)
    {
      var who := Authenticated(r.clientId, r.secret);
      if !who.Found? {
        return Refused(AuthenticationError(who));
      }
      var client := who.client;
      var d: Decision;
      match r.grant {
        case AuthorizationCode(_, _, _) =>
          d := HandleCode(client, r.grant, now);
        case RefreshToken(presented) =>
          d := HandleRefresh(client, presented, r.scope, now);
        case ClientCredentials =>
          if client.kind != Declared {
            d := Deny(UnauthorizedClient);
          } else {
            var scopes := GrantedScopes(r.scope, client.scopes);
            if scopes.None? {
              d := Deny(InvalidScope);
            } else {
              d := Accept(if client.id == OPERATOR_CLIENT then OPERATOR_SUBJECT else client.id, client.id, scopes.value,
                          nonces.family, false, FromClient(client.scopes));
            }
          }
        case OtherGrant =>
          d := Deny(UnsupportedGrantType);
      }
      assert (Model(), d) == Decide(old(Model()), client, r, now, nonces);
      if d.Deny? {
        return Refused(d.error);
      }
      if !r.resourceKnown {
        return Refused(InvalidTarget);
      }
      credentials.Enter(ClaimsFor(Access, d, now + options.accessTtlMs), now, nonces.first, d.source);
      if d.refresh {
        credentials.Enter(ClaimsFor(Refresh, d, now + options.refreshTtlMs), now, nonces.second, d.source);
      }
      return TokensSent(nonces.first, if d.refresh then Some(nonces.second) else None, d.scopes);
    }

    method HandleRevoke(id: Option<ClientId>, secret: Option<string>, token: Option<Token>,
        now: int) returns (reply: Reply)
      modifies this, credentials
      ensures (Model(), reply) == Revoke(options, old(Model()), id, secret, token, now)
    {
      var who := Authenticated(id, secret);
      if !who.Found? {
        return Refused(AuthenticationError(who));
      }
      if token.None? {
        return Refused(InvalidRequest);
      }
      var claims := credentials.Verify(token.value, now);
      if claims.Some? && claims.value.clientId == who.client.id {
        RevokeAndTell(claims.value.family);
      }
      return Done;
    }

    method HandleEndSession(cookie: Option<Token>, now: int) returns (reply: Reply)
      modifies this, credentials
      ensures (Model(), reply) == EndSession(old(Model()), cookie, now)
    {
      var session := CurrentSession(cookie, now);
      if session.Some? {
        RevokeAndTell(session.value.family);
      }
      return Page(200);
    }

    method HandleRegister(metadata: Option<Metadata>, nonces: Nonces) returns (reply: Reply)
      modifies this
      ensures (Model(), reply) == Register(old(Model()), metadata, nonces)
    {
      if metadata.None? {
        return Refused(InvalidMetadata);
      }
      var m := metadata.value;
      if !m.redirectUris.Listed? || m.redirectUris.items == [] || false in m.redirectUris.items {
        return Refused(InvalidRedirectUri);
      }
      if m.authMethod.Some? && m.authMethod.value != "none" {
        return Refused(InvalidMetadata);
      }
      if !OnlyOf(m.grantTypes, ["authorization_code", "refresh_token"]) {
        return Refused(InvalidMetadata);
      }
      if !OnlyOf(m.responseTypes, ["code"]) {
        return Refused(InvalidMetadata);
      }
      var scopes := GrantedScopes(m.scope, SCOPES);
      if scopes.None? || registered >= MAX_REGISTERED_CLIENTS {
        return Refused(InvalidMetadata);
      }
      registered := registered + 1;
      clients := clients[nonces.first := Client(nonces.first, Public, "", scopes.value)];
      return Registered(nonces.first);
    }
  }

  /** Looking a token up before consuming it changes nothing about the consumption. */
  lemma VerifiedTwice(s: Server, token: Token, now: int)
    ensures ConsumeToken(s.(auth := AfterVerify(s.auth, token, now)), token, now) == ConsumeToken(s, token, now)
  {
  }
}
