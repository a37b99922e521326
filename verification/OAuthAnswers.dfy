/** Who gets what of the authorization server: the exact conditions of its answers, told without its steps. */
module OAuthAnswers {
  import opened CredentialAuthority
  import opened OAuthServer
  import opened OAuthRuns
  import opened Optional

  // ----- clients -----

  /** The client known by the id: a module's, if what it may have is granted here at all, or one of the client table. */
  predicate Knows(o: Options, s: Server, id: ClientId, client: Client) {
    if id in o.modules then client == o.modules[id] && Within(client.scopes, SCOPES)
    else id in s.clients && s.clients[id] == client
  }

  /** The request is the client's: a public client sends no secret, any other its own. */
  predicate Proves(o: Options, s: Server, id: Option<ClientId>, secret: Option<string>, client: Client) {
    && id.Some? && id.value != "" && Knows(o, s, id.value, client)
    && (client.kind == Public ==> secret == None || secret == Some(""))
    && (client.kind != Public ==> secret == Some(client.secret))
  }

  lemma KnowsExactly(o: Options, s: Server, id: ClientId, client: Client)
    ensures LookupClient(o, s, id) == Found(client) <==> Knows(o, s, id, client)
  {
  }

  /** A request authenticates as a client exactly when it proves to be that client's. */
  lemma AuthenticatesExactly(o: Options, s: Server, id: Option<ClientId>, secret: Option<string>, client: Client)
    ensures AuthenticateClient(o, s, id, secret) == Found(client) <==> Proves(o, s, id, secret, client)
  {
  }

  predicate Grantable(requested: Option<seq<Scope>>, allowed: seq<Scope>) {
    requested.None? || Within(requested.value, allowed)
  }

  /** All that is allowed when nothing is named, else what is named. */
  ghost predicate Grants(requested: Option<seq<Scope>>, allowed: seq<Scope>, scopes: seq<Scope>) {
    && Grantable(requested, allowed)
    && if requested.None? || requested.value == [] then scopes == allowed
       else forall x :: x in scopes <==> x in requested.value
  }

  /** What is granted is all that is allowed when nothing is named, and what is named otherwise. */
  lemma GrantedAre(requested: Option<seq<Scope>>, allowed: seq<Scope>)
    ensures GrantedScopes(requested, allowed).Some? <==> Grantable(requested, allowed)
    ensures Grantable(requested, allowed) ==> Grants(requested, allowed, GrantedScopes(requested, allowed).value)
  {
  }

  // ----- authorization -----

  /** A live credential of the kind, in time. */
  predicate Holds(s: Server, token: Token, kind: Kind, now: int) {
    token in s.auth.live && s.auth.live[token].kind == kind && now < s.auth.live[token].expiresAt
  }

  predicate CarriesSession(s: Server, r: AuthorizeRequest, now: int) {
    r.cookie.Some? && Holds(s, r.cookie.value, Session, now)
  }

  /** The request is in order, whoever sends it. */
  predicate InOrder(client: Client, r: AuthorizeRequest) {
    && r.redirectUri.Some? && r.redirectRegistered && r.codeResponse && r.challenge.Some?
    && Grantable(r.scope, client.scopes) && r.resourceKnown
  }

  /** The operator signs in with this request. */
  predicate SignsOn(o: Options, s: Server, r: AuthorizeRequest, now: int) {
    !CarriesSession(s, r, now) && o.password != "" && r.isPost && r.password == Some(o.password)
  }

  /** The operator, signed in, allows the request: a module's needs no consent, any other is posted. */
  predicate Consents(s: Server, client: Client, r: AuthorizeRequest, now: int) {
    CarriesSession(s, r, now) && (client.kind == Module || (r.isPost && r.consent == Some("allow")))
  }

  /** The code the request asks for, in the family of the sign-in for a module and in one of its own otherwise. */
  ghost predicate Asked(client: Client, r: AuthorizeRequest, session: Family, now: int, n: Nonces, code: Code) {
    && code.clientId == client.id && Some(code.redirectUri) == r.redirectUri && Some(code.challenge) == r.challenge
    && Grants(r.scope, client.scopes, code.scopes) && code.expiresAt == now + CODE_TTL_MS
    && code.family == if client.kind == Module then session else n.family
  }

  function SessionFamily(s: Server, r: AuthorizeRequest, now: int, n: Nonces): Family {
    if CarriesSession(s, r, now) then s.auth.live[r.cookie.value].family else n.session
  }

  /** A code is sent exactly when the client is known, the request in order, and the operator signs in with it or, signed in
      already, allows it. */
  lemma CodeSentExactly(o: Options, s: Server, r: AuthorizeRequest, now: int, n: Nonces)
    ensures Authorize(o, s, r, now, n).1.CodeSent?
       <==> exists client :: Knows(o, s, r.clientId, client) && InOrder(client, r) && (SignsOn(o, s, r, now) || Consents(s, client, r, now))
  {
    var found := LookupClient(o, s, r.clientId);
    if found.Found? {
      KnowsExactly(o, s, r.clientId, found.client);
      CodeSentTo(o, s, r, now, n, found.client);
    } else {
      forall client ensures !Knows(o, s, r.clientId, client) {
        KnowsExactly(o, s, r.clientId, client);
      }
    }
  }

  lemma CodeSentTo(o: Options, s: Server, r: AuthorizeRequest, now: int, n: Nonces, client: Client)
    requires LookupClient(o, s, r.clientId) == Found(client)
    ensures Authorize(o, s, r, now, n).1.CodeSent? <==> InOrder(client, r) && (SignsOn(o, s, r, now) || Consents(s, client, r, now))
    ensures forall other :: Knows(o, s, r.clientId, other) ==> other == client
  {
    forall other | Knows(o, s, r.clientId, other) ensures other == client {
      KnowsExactly(o, s, r.clientId, other);
    }
  }

  /** The code sent is pending as it was asked for; a sign-in has established the operator's session. Without a code nothing
      becomes pending or live. */
  lemma CodeSentLeaves(o: Options, s: Server, r: AuthorizeRequest, now: int, n: Nonces)
    requires o.refreshTtlMs > 0
    ensures var (s', reply) := Authorize(o, s, r, now, n);
      if reply.CodeSent? then
        && reply.code == n.first && n.first in s'.codes
        && (forall c :: c in s'.codes ==> now < s'.codes[c].expiresAt)
        && (forall client :: Knows(o, s, r.clientId, client) ==> Asked(client, r, SessionFamily(s, r, now, n), now, n, s'.codes[n.first]))
        && (SignsOn(o, s, r, now) ==>
              n.second in s'.auth.live
              && s'.auth.live[n.second] == Claims(Session, OPERATOR_SUBJECT, BROWSER, SCOPES, n.session, now + o.refreshTtlMs))
      else
        && s'.codes == s.codes && s'.auth.log == s.auth.log
        && forall t :: t in s'.auth.live ==> t in s.auth.live && s'.auth.live[t] == s.auth.live[t]
  {
    AuthorizeOutcome(o, s, r, now, n);
    if Authorize(o, s, r, now, n).1.CodeSent? {
      var client := LookupClient(o, s, r.clientId).client;
      CodeSentTo(o, s, r, now, n, client);
      CodeIsPending(o, s, client, r, GrantedScopes(r.scope, client.scopes).value, now, n);
      GrantIsAsked(client, r, GrantedScopes(r.scope, client.scopes).value, SessionFamily(s, r, now, n), now, n);
    }
  }

  lemma GrantIsAsked(client: Client, r: AuthorizeRequest, scopes: seq<Scope>, session: Family, now: int, n: Nonces)
    requires r.redirectUri.Some? && r.challenge.Some? && GrantedScopes(r.scope, client.scopes) == Some(scopes)
    ensures Asked(client, r, session, now, n, GrantFor(client, r.redirectUri.value, r.challenge.value, scopes, session, now, n))
  {
    GrantedAre(r.scope, client.scopes);
  }

  lemma CodeIsPending(o: Options, s: Server, client: Client, r: AuthorizeRequest, scopes: seq<Scope>, now: int, n: Nonces)
    requires r.redirectUri.Some? && r.challenge.Some?
    ensures var s', family := CodeIssued(o, s, client, r, scopes, now, n), SessionFamily(s, r, now, n);
      && n.first in s'.codes && (forall c :: c in s'.codes ==> now < s'.codes[c].expiresAt)
      && s'.codes[n.first] == GrantFor(client, r.redirectUri.value, r.challenge.value, scopes, family, now, n)
      && (!CarriesSession(s, r, now) ==> n.second in s'.auth.live && s'.auth.live[n.second] == SignInClaims(o, now, n))
  {
  }

  /** Without a code an orderly request of a known client is answered: nobody can sign in, the password was wrong, consent was
      refused, or the operator is asked. */
  lemma OtherAnswers(o: Options, s: Server, r: AuthorizeRequest, now: int, n: Nonces, client: Client)
    requires Knows(o, s, r.clientId, client) && InOrder(client, r)
    ensures var reply := Authorize(o, s, r, now, n).1;
      && (reply == Page(503) <==> !CarriesSession(s, r, now) && o.password == "")
      && (reply == Page(401) <==> !CarriesSession(s, r, now) && o.password != "" && r.isPost
                                    && r.password.Some? && r.password.value != o.password)
      && (reply == Redirected(AccessDenied) <==> CarriesSession(s, r, now) && client.kind != Module && r.isPost && r.consent == Some("deny"))
      && (reply.CodeSent? || reply == Page(503) || reply == Page(401) || reply == Redirected(AccessDenied) || reply == Page(200))
  {
    KnowsExactly(o, s, r.clientId, client);
  }

  /** A request that is not in order, or of a client not known, is refused with the first thing wrong and changes nothing. */
  lemma DisorderRefused(o: Options, s: Server, r: AuthorizeRequest, now: int, n: Nonces)
    requires forall client :: Knows(o, s, r.clientId, client) ==> !InOrder(client, r)
    ensures var (s', reply) := Authorize(o, s, r, now, n);
      && s' == s
      && (reply == Redirected(UnsupportedResponseType) ==> !r.codeResponse)
      && (reply == Redirected(InvalidRequest) ==> r.challenge.None?)
      && (reply == Redirected(InvalidTarget) ==> !r.resourceKnown)
      && (reply == Redirected(InvalidScope) ==> forall client :: Knows(o, s, r.clientId, client) ==> !Grantable(r.scope, client.scopes))
      && (reply == Page(400) ==> r.redirectUri.None? || !r.redirectRegistered || forall client :: !Knows(o, s, r.clientId, client))
      && (reply.Redirected? ==> r.redirectUri.Some? && r.redirectRegistered)
      && (reply.Redirected? || reply == Page(400) || reply == Refused(ServerError))
  {
    var found := LookupClient(o, s, r.clientId);
    if found.Found? {
      KnowsExactly(o, s, r.clientId, found.client);
      CodeSentTo(o, s, r, now, n, found.client);
    } else {
      forall client ensures !Knows(o, s, r.clientId, client) {
        KnowsExactly(o, s, r.clientId, client);
      }
    }
  }

  // ----- tokens -----

  /** The code is pending and in time, and the client's own; the request shows the verifier of its challenge and the redirect it
      was granted for. */
  predicate RedeemsCode(s: Server, client: Client, g: Grant, now: int) {
    && g.AuthorizationCode? && g.code in s.codes
    && var code := s.codes[g.code];
       now < code.expiresAt && code.clientId == client.id && g.verifierHash == Some(code.challenge) && g.redirectUri == Some(code.redirectUri)
  }

  predicate OwnsRefresh(s: Server, client: Client, token: Token, now: int) {
    Holds(s, token, Refresh, now) && s.auth.live[token].clientId == client.id
  }

  /** What the request presents entitles the client to tokens. */
  predicate Entitled(s: Server, client: Client, r: TokenRequest, now: int) {
    match r.grant
    case AuthorizationCode(_, _, _) => RedeemsCode(s, client, r.grant, now)
    case RefreshToken(t) => OwnsRefresh(s, client, t, now) && Grantable(r.scope, s.auth.live[t].scopes)
    case ClientCredentials => client.kind == Declared && Grantable(r.scope, client.scopes)
    case OtherGrant => false
  }

  /** A request that proves to be nobody's is refused before anything else, and changes nothing: a module's client that may have
      what is not granted here is the daemon's own fault. */
  lemma NobodyIsRefused(o: Options, s: Server, r: TokenRequest, now: int, n: Nonces)
    requires forall client :: !Proves(o, s, r.clientId, r.secret, client)
    ensures Exchange(o, s, r, now, n)
         == (s, Refused(if r.clientId.Some? && r.clientId.value in o.modules && r.clientId.value != ""
                           && !Within(o.modules[r.clientId.value].scopes, SCOPES) then ServerError else InvalidClient))
  {
    var who := AuthenticateClient(o, s, r.clientId, r.secret);
    if who.Found? {
      AuthenticatesExactly(o, s, r.clientId, r.secret, who.client);
    }
  }

  lemma OnlyOneProves(o: Options, s: Server, id: Option<ClientId>, secret: Option<string>, client: Client)
    requires AuthenticateClient(o, s, id, secret) == Found(client)
    ensures forall other :: Proves(o, s, id, secret, other) <==> other == client
  {
    forall other ensures Proves(o, s, id, secret, other) <==> other == client {
      AuthenticatesExactly(o, s, id, secret, other);
    }
  }

  lemma NobodyProves(o: Options, s: Server, id: Option<ClientId>, secret: Option<string>)
    requires !AuthenticateClient(o, s, id, secret).Found?
    ensures forall client :: !Proves(o, s, id, secret, client)
  {
    forall client ensures !Proves(o, s, id, secret, client) {
      AuthenticatesExactly(o, s, id, secret, client);
    }
  }

  lemma DecidesExactly(s: Server, client: Client, r: TokenRequest, now: int, n: Nonces)
    ensures Decide(s, client, r, now, n).1.Accept? <==> Entitled(s, client, r, now)
  {
  }

  /** Tokens are sent exactly when the request proves to be a client's, what it presents entitles that client to them, and the
      resource is known. */
  lemma TokensSentExactly(o: Options, s: Server, r: TokenRequest, now: int, n: Nonces)
    ensures Exchange(o, s, r, now, n).1.TokensSent?
       <==> exists client :: Proves(o, s, r.clientId, r.secret, client) && Entitled(s, client, r, now) && r.resourceKnown
  {
    var who := AuthenticateClient(o, s, r.clientId, r.secret);
    if who.Found? {
      OnlyOneProves(o, s, r.clientId, r.secret, who.client);
      DecidesExactly(s, who.client, r, now, n);
    } else {
      NobodyProves(o, s, r.clientId, r.secret);
    }
  }

  /** A code yields tokens exactly so, and its presentation spends it whatever comes of it. */
  lemma CodeRedeemedExactly(o: Options, s: Server, r: TokenRequest, now: int, n: Nonces, client: Client)
    requires r.grant.AuthorizationCode? && Proves(o, s, r.clientId, r.secret, client)
    ensures var (s', reply) := Exchange(o, s, r, now, n);
      && (reply.TokensSent? <==>
            && r.grant.code in s.codes && now < s.codes[r.grant.code].expiresAt && s.codes[r.grant.code].clientId == client.id
            && r.grant.verifierHash == Some(s.codes[r.grant.code].challenge)
            && r.grant.redirectUri == Some(s.codes[r.grant.code].redirectUri)
            && r.resourceKnown)
      && (reply.TokensSent? ==> reply == TokensSent(n.first, Some(n.second), s.codes[r.grant.code].scopes))
      && (!reply.TokensSent? ==> reply == Refused(if RedeemsCode(s, client, r.grant, now) then InvalidTarget else InvalidGrant))
      && r.grant.code !in s'.codes
  {
    AuthenticatesExactly(o, s, r.clientId, r.secret, client);
  }

  // ----- registration -----

  /** The list is not given, or holds nothing but what is allowed. */
  predicate Lists(l: Listing<string>, allowed: seq<string>) {
    match l
    case Absent => true
    case NoList => false
    case Listed(items) => forall k :: 0 <= k < |items| ==> items[k] in allowed
  }

  /** Some redirect address, all of them fit. */
  predicate Redirects(l: Listing<bool>) {
    l.Listed? && |l.items| > 0 && forall k :: 0 <= k < |l.items| ==> l.items[k]
  }

  predicate Registrable(m: Metadata) {
    && Redirects(m.redirectUris)
    && (m.authMethod == None || m.authMethod == Some("none"))
    && Lists(m.grantTypes, ["authorization_code", "refresh_token"]) && Lists(m.responseTypes, ["code"])
    && Grantable(m.scope, SCOPES)
  }

  /** A client is registered exactly on metadata that asks for nothing the server lacks, up to the limit; it is public, under a
      new name, and no other client changes. */
  lemma RegisteredExactly(s: Server, metadata: Option<Metadata>, n: Nonces)
    ensures var (s', reply) := Register(s, metadata, n);
      && (reply.Registered? <==> metadata.Some? && Registrable(metadata.value) && s.registered < MAX_REGISTERED_CLIENTS)
      && (reply == Refused(InvalidRedirectUri) <==> metadata.Some? && !Redirects(metadata.value.redirectUris))
      && (!reply.Registered? ==> s' == s && (reply == Refused(InvalidRedirectUri) || reply == Refused(InvalidMetadata)))
      && (reply.Registered? ==>
            && reply.id == n.first && n.first in s'.clients
            && s'.clients[n.first] == Client(n.first, Public, "", s'.clients[n.first].scopes)
            && Grants(metadata.value.scope, SCOPES, s'.clients[n.first].scopes)
            && s'.clients - {n.first} == s.clients - {n.first} && s'.registered == s.registered + 1
            && s'.auth == s.auth && s'.codes == s.codes)
  {
    if metadata.Some? {
      GrantedAre(metadata.value.scope, SCOPES);
      var uris := metadata.value.redirectUris;
      assert uris.Listed? && false in uris.items ==> exists k :: 0 <= k < |uris.items| && !uris.items[k];
    }
  }

  /** A revocation is answered alike whatever the token, but only to a client that proves itself and names one. */
  lemma RevocationAnswers(o: Options, s: Server, id: Option<ClientId>, secret: Option<string>, token: Option<Token>, now: int)
    ensures Revoke(o, s, id, secret, token, now).1 == Done <==> token.Some? && exists client :: Proves(o, s, id, secret, client)
  {
    var who := AuthenticateClient(o, s, id, secret);
    if who.Found? {
      OnlyOneProves(o, s, id, secret, who.client);
      assert Proves(o, s, id, secret, who.client);
    } else {
      NobodyProves(o, s, id, secret);
    }
  }
}
