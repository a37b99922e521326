/** The promises of the authorization server, for every run. */
module OAuthSafety {
  import opened CredentialAuthority
  import opened OAuthServer
  import opened OAuthRuns
  import opened Optional

  datatype Event =
    | Authorization(authorize: AuthorizeRequest, now: int, nonces: Nonces)
    | TokenCall(exchange: TokenRequest, now: int, nonces: Nonces)
    | Revocation(id: Option<ClientId>, secret: Option<string>, token: Option<Token>, now: int)
    | SignOut(cookie: Option<Token>, now: int)
    | Registration(metadata: Option<Metadata>, nonces: Nonces)
    | OutsideRevocation(family: Family)
    | Verification(token: Option<Token>, now: int)

  function Step(o: Options, s: Server, e: Event): Server {
    match e
    case Authorization(r, now, n) => Authorize(o, s, r, now, n).0
    case TokenCall(r, now, n) => Exchange(o, s, r, now, n).0
    case Revocation(id, secret, token, now) => Revoke(o, s, id, secret, token, now).0
    case SignOut(cookie, now) => EndSession(s, cookie, now).0
    case Registration(metadata, n) => Register(s, metadata, n).0
    case OutsideRevocation(family) => RevokeGrants(s, family)
    case Verification(token, now) => AfterLookup(s, token, now)
  }

  /** Random values do not repeat; everything else about an event is free. */
  ghost predicate Possible(o: Options, s: Server, e: Event) {
    match e
    case Authorization(_, _, n) => NoncesNew(s.auth.log, n)
    case TokenCall(_, _, n) => NoncesNew(s.auth.log, n)
    case Registration(_, n) => n.first !in s.clients && n.first !in o.modules
    case _ => true
  }

  ghost predicate Initial(s: Server) {
    s.auth.live == map[] && s.auth.retired == map[] && s.auth.log == [] && s.codes == map[]
  }

  function Run(o: Options, start: Server, events: seq<Event>): Server {
    if events == [] then start
    else Step(o, Run(o, start, events[..|events| - 1]), events[|events| - 1])
  }

  ghost predicate Feasible(o: Options, start: Server, events: seq<Event>) {
    events == [] ||
    (Feasible(o, start, events[..|events| - 1]) && Possible(o, Run(o, start, events[..|events| - 1]), events[|events| - 1]))
  }

  /** `s` is reached from an initial state by the events in order. */
  ghost predicate Reached(o: Options, start: Server, events: seq<Event>, s: Server) {
    Initial(start) && Feasible(o, start, events) && s == Run(o, start, events)
  }

  lemma RevocationKeeps(o: Options, s: Server, id: Option<ClientId>, secret: Option<string>, token: Option<Token>,
      now: int)
    requires Invariant(s)
    ensures Invariant(Revoke(o, s, id, secret, token, now).0)
  {
    LookupKeeps(s, token, now);
    if token.Some? && Verified(s.auth, token.value, now).Some? {
      RevokeKeeps(AfterLookup(s, token, now), Verified(s.auth, token.value, now).value.family);
    }
    var r := Revoke(o, s, id, secret, token, now).0;
    assert r == s || r == AfterLookup(s, token, now)
      || (token.Some? && Verified(s.auth, token.value, now).Some?
          && r == RevokeGrants(AfterLookup(s, token, now), Verified(s.auth, token.value, now).value.family));
  }

  lemma SignOutKeeps(s: Server, cookie: Option<Token>, now: int)
    requires Invariant(s)
    ensures Invariant(EndSession(s, cookie, now).0)
  {
    LookupKeeps(s, cookie, now);
    if SessionOf(s, cookie, now).Some? {
      RevokeKeeps(AfterLookup(s, cookie, now), SessionOf(s, cookie, now).value.family);
    }
  }

  lemma RegistrationKeeps(s: Server, metadata: Option<Metadata>, n: Nonces)
    requires Invariant(s)
    ensures Invariant(Register(s, metadata, n).0)
  {
    var r := Register(s, metadata, n).0;
    assert r.auth == s.auth && r.codes == s.codes;
    ShrinkKeeps(s, r);
  }

  lemma StepKeeps(o: Options, s: Server, e: Event)
    requires Invariant(s) && Possible(o, s, e)
    ensures Invariant(Step(o, s, e))
  {
    match e {
      case Authorization(r, now, n) => AuthorizeKeeps(o, s, r, now, n);
      case TokenCall(r, now, n) => ExchangeKeeps(o, s, r, now, n);
      case Revocation(id, secret, token, now) => RevocationKeeps(o, s, id, secret, token, now);
      case SignOut(cookie, now) => SignOutKeeps(s, cookie, now);
      case Registration(metadata, n) => RegistrationKeeps(s, metadata, n);
      case OutsideRevocation(family) => RevokeKeeps(s, family);
      case Verification(token, now) => LookupKeeps(s, token, now);
    }
  }

  /** Every reachable state satisfies the invariant, whatever the requests and however they interleave. */
  lemma {:induction false} ReachedIsSound(o: Options, start: Server, events: seq<Event>, s: Server)
    requires Reached(o, start, events, s)
    ensures Invariant(s)
    decreases |events|
  {
    if events != [] {
      var last := |events| - 1;
      var p := Run(o, start, events[..last]);
      ReachedIsSound(o, start, events[..last], p);
      StepKeeps(o, p, events[last]);
    }
  }

  // ----- promises about the history -----

  /** An entry of a sound history was sound when it was made. */
  lemma {:induction false} EntryWasOk(log: Log, j: nat)
    requires LogOk(log) && j < |log|
    ensures LogOk(log[..j]) && EntryOk(log[..j], log[j])
    decreases |log|
  {
    var last := |log| - 1;
    if j < last {
      EntryWasOk(log[..last], j);
      assert log[..last][..j] == log[..j];
    }
  }

  /** No credential is issued, and no code granted, into a family that was revoked before. */
  lemma NothingEntersARevokedFamily(o: Options, start: Server, events: seq<Event>, s: Server, i: nat, j: nat)
    requires Reached(o, start, events, s) && i < j < |s.auth.log| && s.auth.log[i].Revoked?
    ensures s.auth.log[j].Issued? ==> s.auth.log[j].claims.family != s.auth.log[i].family
    ensures s.auth.log[j].Granted? ==> s.auth.log[j].grant.family != s.auth.log[i].family
  {
    ReachedIsSound(o, start, events, s);
    EntryWasOk(s.auth.log, j);
    assert s.auth.log[i] in s.auth.log[..j];
  }

  /** A family that was revoked holds nothing any more: no live or retired token, no pending code. */
  lemma RevokedFamilyIsEmpty(o: Options, start: Server, events: seq<Event>, s: Server, family: Family)
    requires Reached(o, start, events, s) && Revoked(family) in s.auth.log
    ensures forall t :: t in s.auth.live ==> s.auth.live[t].family != family
    ensures forall t :: t in s.auth.retired ==> s.auth.retired[t].family != family
    ensures forall c :: c in s.codes ==> s.codes[c].family != family
  {
    ReachedIsSound(o, start, events, s);
  }

  /** A code, and a refresh token, yields at most one access token and one refresh token: one token response. */
  lemma OneResponseEach(o: Options, start: Server, events: seq<Event>, s: Server, i: nat, j: nat)
    requires Reached(o, start, events, s) && i < j < |s.auth.log| && s.auth.log[i].Issued? && s.auth.log[j].Issued?
    requires s.auth.log[i].source == s.auth.log[j].source
    requires s.auth.log[j].source.FromCode? || s.auth.log[j].source.FromRefresh?
    ensures s.auth.log[i].claims.kind != s.auth.log[j].claims.kind
    ensures s.auth.log[i].claims.kind != Session && s.auth.log[j].claims.kind != Session
  {
    ReachedIsSound(o, start, events, s);
    EntryWasOk(s.auth.log, i);
    EntryWasOk(s.auth.log, j);
    assert s.auth.log[i] in s.auth.log[..j];
  }

  /** At any time at most one live refresh token descends from a code, and none while the code is pending. */
  lemma OneLiveRefreshToken(o: Options, start: Server, events: seq<Event>, s: Server, code: Token, t: Token, u: Token)
    requires Reached(o, start, events, s)
    requires t in LiveRefresh(s.auth) && Origin(s.auth.log, t) == Some(code)
    ensures code !in s.codes
    ensures u in LiveRefresh(s.auth) && Origin(s.auth.log, u) == Some(code) ==> t == u
  {
    ReachedIsSound(o, start, events, s);
    OriginWasRedeemed(s.auth.log, t);
  }

  /** `e` granted `code` to the grantee of `claims`, with at least their scopes and no more than the client had then. */
  ghost predicate GrantCovers(e: Entry, code: Token, claims: Claims) {
    && e.Granted? && e.code == code
    && claims.subject == OPERATOR_SUBJECT && claims.clientId == e.grant.clientId && claims.family == e.grant.family
    && Within(claims.scopes, e.grant.scopes) && Within(e.grant.scopes, e.allowed)
  }

  lemma WithinTransitive(a: seq<Scope>, b: seq<Scope>, c: seq<Scope>)
    requires Within(a, b) && Within(b, c)
    ensures Within(a, c)
  {
  }

  /** Along a refresh chain the client, the subject and the family stay those of the code, and the scopes only
      shrink, always within those the client was registered with. */
  lemma {:induction false} ChainStaysInGrant(log: Log, token: Token)
    requires LogOk(log) && Origin(log, token).Some?
    ensures exists e, g :: e in log && e.Issued? && e.token == token && g in log && GrantCovers(g, Origin(log, token).value, e.claims)
    decreases |log|
  {
    var before, last := log[..|log| - 1], log[|log| - 1];
    assert forall x :: x in before ==> x in log;
    if last.Issued? && last.token == token {
      assert EntryOk(before, last) && last in log;
      match last.source {
        case FromCode(code) =>
          var g :| g in before && g.Granted? && g.code == code && Redeems(last.claims, g.grant);
          GrantWasWithin(before, g);
          assert GrantCovers(g, code, last.claims);
        case FromRefresh(presented) =>
          ChainStaysInGrant(before, presented);
          var e, g :| e in before && e.Issued? && e.token == presented && g in before
            && GrantCovers(g, Origin(before, presented).value, e.claims);
          var p :| p in before && Refreshes(p, presented, last.claims);
          TokensAreUnique(before, e, p);
          WithinTransitive(last.claims.scopes, e.claims.scopes, g.grant.scopes);
          assert GrantCovers(g, Origin(log, token).value, last.claims);
      }
    } else {
      ChainStaysInGrant(before, token);
    }
  }

  lemma {:induction false} GrantWasWithin(log: Log, g: Entry)
    requires LogOk(log) && g in log && g.Granted?
    ensures Within(g.grant.scopes, g.allowed)
    decreases |log|
  {
    var before, last := log[..|log| - 1], log[|log| - 1];
    assert log == before + [last];
    if g != last {
      GrantWasWithin(before, g);
    }
  }

  lemma {:induction false} TokensAreUnique(log: Log, e: Entry, p: Entry)
    requires LogOk(log) && e in log && p in log && e.Issued? && p.Issued? && e.token == p.token
    ensures e == p
    decreases |log|
  {
    var before, last := log[..|log| - 1], log[|log| - 1];
    assert log == before + [last];
    if e in before && p in before {
      TokensAreUnique(before, e, p);
    } else {
      assert EntryOk(before, last);
    }
  }

  // ----- promises about single requests, in every reachable state -----

  ghost predicate FamilyEmpty(s: Server, family: Family) {
    && (forall t :: t in s.auth.live ==> s.auth.live[t].family != family)
    && (forall t :: t in s.auth.retired ==> s.auth.retired[t].family != family)
    && (forall c :: c in s.codes ==> s.codes[c].family != family)
  }

  /** `r` presents `token` for a refresh, by a client that authenticates. */
  ghost predicate PresentsRefresh(o: Options, s: Server, r: TokenRequest, token: Token) {
    r.grant == RefreshToken(token) && AuthenticateClient(o, s, r.clientId, r.secret).Found?
  }

  /** Presenting a refresh token that is remembered as retired ends its family exactly when the token would still
      be valid; once its time has passed the request changes nothing. */
  lemma RetiredPresentation(o: Options, s: Server, r: TokenRequest, token: Token, now: int, n: Nonces)
    requires Invariant(s) && PresentsRefresh(o, s, r, token) && token in s.auth.retired
    ensures var (s', reply) := Exchange(o, s, r, now, n);
      && reply == Refused(InvalidGrant)
      && (now < s.auth.retired[token].expiresAt ==>
            s' == RevokeGrants(s, s.auth.retired[token].family) && FamilyEmpty(s', s.auth.retired[token].family))
      && (now >= s.auth.retired[token].expiresAt ==> s' == s)
  {
  }

  /** A refresh token that was exchanged at any earlier point of the run ends its family when presented again
      before it would have expired. */
  lemma ReuseEndsFamily(o: Options, start: Server, events: seq<Event>, s: Server, first: Entry, used: Entry,
                        r: TokenRequest, now: int, n: Nonces)
    requires Reached(o, start, events, s)
    requires first in s.auth.log && used in s.auth.log && first.Issued? && used.Issued?
    requires used.source == FromRefresh(first.token)
    requires PresentsRefresh(o, s, r, first.token)
    requires now < first.claims.expiresAt && s.auth.clock < first.claims.expiresAt
    ensures var (s', reply) := Exchange(o, s, r, now, n);
      reply == Refused(InvalidGrant) && FamilyEmpty(s', first.claims.family)
  {
    ReachedIsSound(o, start, events, s);
    if first.token in s.auth.retired {
      RetiredPresentation(o, s, r, first.token, now, n);
    } else {
      RevokedFamilyIsEmpty(o, start, events, s, first.claims.family);
    }
  }

  /** A spent code is refused and changes nothing: the tokens it yielded stay live. The written contract of the
      server says their family ends; the code does not do that. */
  lemma SpentCodeChangesNothing(o: Options, start: Server, events: seq<Event>, s: Server, used: Entry,
                                r: TokenRequest, now: int, n: Nonces)
    requires Reached(o, start, events, s)
    requires used in s.auth.log && used.Issued? && used.source.FromCode?
    requires r.grant.AuthorizationCode? && r.grant.code == used.source.code
    requires AuthenticateClient(o, s, r.clientId, r.secret).Found?
    ensures Exchange(o, s, r, now, n) == (s, Refused(InvalidGrant))
  {
    ReachedIsSound(o, start, events, s);
    assert s.codes - {r.grant.code} == s.codes;
  }

  /** Presented again after it yielded tokens, a code is refused and the access token it yielded stays live. */
  lemma SpentCodeKeepsTokens(o: Options, s: Server, r: TokenRequest, now: int, n: Nonces,
                             again: TokenRequest, later: int, m: Nonces)
    requires n.first != n.second && o.accessTtlMs > 0 && o.refreshTtlMs > 0
    requires r.grant.AuthorizationCode? && Exchange(o, s, r, now, n).1.TokensSent?
    requires again.grant.AuthorizationCode? && again.grant.code == r.grant.code
    requires AuthenticateClient(o, Exchange(o, s, r, now, n).0, again.clientId, again.secret).Found?
    ensures var (s', reply) := Exchange(o, s, r, now, n);
      && Exchange(o, s', again, later, m) == (s', Refused(InvalidGrant))
      && reply.access in s'.auth.live && s'.auth.live[reply.access].family == s.codes[r.grant.code].family
  {
    var client := AuthenticateClient(o, s, r.clientId, r.secret).client;
    var (s1, d) := RedeemCode(s, client, r.grant, now);
    IssuedTokensLive(o, s1, d, now, n);
    var s' := Exchange(o, s, r, now, n).0;
    assert r.grant.code !in s'.codes;
    assert s'.codes - {r.grant.code} == s'.codes;
  }

  /** A code that was redeemed is presented again, and what it yielded stays live. */
  ghost predicate SpentButLive(o: Options, s: Server, again: TokenRequest, now: int, n: Nonces) {
    && again.grant.AuthorizationCode? && AuthenticateClient(o, s, again.clientId, again.secret).Found?
    && (exists used :: used in s.auth.log && used.Issued? && used.source == FromCode(again.grant.code) && used.token in s.auth.live)
    && Exchange(o, s, again, now, n) == (s, Refused(InvalidGrant))
  }

  const PUBLIC := Client("c", Public, "", SCOPES)
  const START := Server(Authority(map[], map[], map[], [], 0), map[], map["c" := PUBLIC], 0)
  const SIGN_IN := AuthorizeRequest("c", Some("u"), true, true, true, Some("h"), None, true, None, None, Some("pw"))
  const REDEEM := TokenRequest(Some("c"), None, AuthorizationCode("code", Some("h"), Some("u")), None, true)
  const FIRST := Nonces("code", "session", "family", "signin")
  const SECOND := Nonces("access", "refresh", "f", "g")

  lemma SignsIn(o: Options)
    requires o == Options(map[], "pw", 1000, 1000)
    ensures var s := Authorize(o, START, SIGN_IN, 0, FIRST).0;
      && s.codes == map["code" := Code("c", "u", "h", SCOPES, "family", CODE_TTL_MS)] && s.clients == START.clients
      && NoncesNew(START.auth.log, FIRST) && NoncesNew(s.auth.log, SECOND)
  {
    assert GrantedScopes(None, SCOPES) == Some(SCOPES);
  }

  /** Such a run: a sign-in, the code's redemption and the code once more. */
  lemma SpentCodeCanStayLive()
    ensures exists o, start, events, s, again, now, n :: Reached(o, start, events, s) && SpentButLive(o, s, again, now, n)
  {
    var o := Options(map[], "pw", 1000, 1000);
    var a, b := Authorization(SIGN_IN, 0, FIRST), TokenCall(REDEEM, 1, SECOND);
    var one := Authorize(o, START, SIGN_IN, 0, FIRST).0;
    var two := Exchange(o, one, REDEEM, 1, SECOND).0;
    SignsIn(o);
    Redeemed(o, one);
    SpentCodeKeepsTokens(o, one, REDEEM, 1, SECOND, REDEEM, 2, SECOND);
    ReachedByTwo(o, a, b);
    assert SpentButLive(o, two, REDEEM, 2, SECOND);
  }

  lemma Redeemed(o: Options, s: Server)
    requires o == Options(map[], "pw", 1000, 1000) && s.clients == START.clients
    requires s.codes == map["code" := Code("c", "u", "h", SCOPES, "family", CODE_TTL_MS)]
    ensures var (s', reply) := Exchange(o, s, REDEEM, 1, SECOND);
      && reply == TokensSent("access", Some("refresh"), SCOPES)
      && AuthenticateClient(o, s', REDEEM.clientId, REDEEM.secret).Found?
      && exists e :: e in s'.auth.log && e.Issued? && e.source == FromCode("code") && e.token == "access"
  {
    assert AuthenticateClient(o, s, Some("c"), None) == Found(PUBLIC);
    var (s1, d) := RedeemCode(s, PUBLIC, REDEEM.grant, 1);
    assert d == Accept(OPERATOR_SUBJECT, "c", SCOPES, "family", true, FromCode("code"));
    var e := Issued("access", ClaimsFor(Access, d, 1 + o.accessTtlMs), d.source);
    assert e in Exchange(o, s, REDEEM, 1, SECOND).0.auth.log;
  }

  lemma ReachedByTwo(o: Options, a: Event, b: Event)
    requires Possible(o, START, a) && Possible(o, Step(o, START, a), b)
    ensures Reached(o, START, [a, b], Step(o, Step(o, START, a), b))
  {
    assert [a, b][..1] == [a] && [a][..0] == [];
    assert Run(o, START, []) == START && Run(o, START, [a]) == Step(o, START, a);
    assert Feasible(o, START, []) && Feasible(o, START, [a]);
  }

  /** Presenting a code ends a family exactly when the code is pending, in time and another client's. */
  lemma CodeRevokesExactly(o: Options, s: Server, r: TokenRequest, now: int, n: Nonces)
    requires Invariant(s) && r.grant.AuthorizationCode? && AuthenticateClient(o, s, r.clientId, r.secret).Found?
    ensures var client := AuthenticateClient(o, s, r.clientId, r.secret).client;
      (exists f :: Revoked(f) !in s.auth.log && Revoked(f) in Exchange(o, s, r, now, n).0.auth.log)
      <==> (r.grant.code in s.codes && s.codes[r.grant.code].expiresAt > now && s.codes[r.grant.code].clientId != client.id)
  {
    var client := AuthenticateClient(o, s, r.clientId, r.secret).client;
    var s' := Exchange(o, s, r, now, n).0;
    if r.grant.code in s.codes && s.codes[r.grant.code].expiresAt > now && s.codes[r.grant.code].clientId != client.id {
      var f := s.codes[r.grant.code].family;
      assert Revoked(f) !in s.auth.log && Revoked(f) in s'.auth.log;
    }
  }

  /** A refresh token presented by its own client, in time. */
  ghost predicate OwnRefresh(o: Options, s: Server, r: TokenRequest, token: Token, now: int) {
    && PresentsRefresh(o, s, r, token)
    && Verified(s.auth, token, now).Some? && s.auth.live[token].kind == Refresh
    && s.auth.live[token].clientId == AuthenticateClient(o, s, r.clientId, r.secret).client.id
  }

  predicate ScopeRefused(r: TokenRequest, claims: Claims) {
    r.scope.Some? && !Within(r.scope.value, claims.scopes)
  }

  /** A refused scope leaves a live refresh token as it was; a refused resource has already spent it; nothing else
      refuses it. */
  lemma RefusedScopeOrResource(o: Options, s: Server, r: TokenRequest, token: Token, now: int, n: Nonces)
    requires Invariant(s) && OwnRefresh(o, s, r, token, now)
    ensures var claims := s.auth.live[token];
      var (s', reply) := Exchange(o, s, r, now, n);
      if ScopeRefused(r, claims) then s' == s && reply == Refused(InvalidScope)
      else if !r.resourceKnown then
        reply == Refused(InvalidTarget) && s'.auth.log == s.auth.log && token !in s'.auth.live && token in s'.auth.retired
      else reply.TokensSent?
  {
  }

  /** After a refused resource the next presentation of the token, in time, ends its family. */
  lemma RefusedResourceThenReuse(o: Options, s: Server, r: TokenRequest, token: Token, now: int, n: Nonces,
                                 again: TokenRequest, later: int, m: Nonces)
    requires Invariant(s) && OwnRefresh(o, s, r, token, now)
    requires !ScopeRefused(r, s.auth.live[token]) && !r.resourceKnown
    requires PresentsRefresh(o, Exchange(o, s, r, now, n).0, again, token) && later < s.auth.live[token].expiresAt
    ensures FamilyEmpty(Exchange(o, Exchange(o, s, r, now, n).0, again, later, m).0, s.auth.live[token].family)
  {
    var s' := Exchange(o, s, r, now, n).0;
    RefreshReady(s, AuthenticateClient(o, s, r.clientId, r.secret).client, token, r.scope, now);
    RetireKeeps(s, token);
    RetiredPresentation(o, s', again, token, later, m);
  }

  lemma IssuedTokensLive(o: Options, s: Server, d: Decision, now: int, n: Nonces)
    requires d.Accept? && n.first != n.second && o.accessTtlMs > 0 && o.refreshTtlMs > 0
    ensures var a := IssueTokens(o, s, d, now, n).auth;
      && n.first in a.live && a.live[n.first] == ClaimsFor(Access, d, now + o.accessTtlMs)
      && Verified(a, n.first, now) == Some(a.live[n.first])
      && (d.refresh ==> n.second in a.live && a.live[n.second] == ClaimsFor(Refresh, d, now + o.refreshTtlMs))
  {
  }

  /** What is accepted is for the client that asked; public and module clients get a refresh token with it. */
  lemma DecidesFor(s: Server, client: Client, r: TokenRequest, now: int, n: Nonces)
    ensures var d := Decide(s, client, r, now, n).1;
      d.Accept? ==> d.clientId == client.id && (client.kind != Declared ==> d.refresh)
  {
  }

  /** An access token is sent only to the client that authenticated, live and in its own name. */
  lemma TokensGoToTheirClient(o: Options, s: Server, r: TokenRequest, now: int, n: Nonces)
    requires Invariant(s) && NoncesNew(s.auth.log, n) && Exchange(o, s, r, now, n).1.TokensSent?
    requires o.accessTtlMs > 0 && o.refreshTtlMs > 0
    ensures var (s', reply) := Exchange(o, s, r, now, n);
      var who := AuthenticateClient(o, s, r.clientId, r.secret);
      && who.Found?
      && reply.access in s'.auth.live && s'.auth.live[reply.access].clientId == who.client.id
      && s'.auth.live[reply.access].kind == Access && s'.auth.live[reply.access].scopes == reply.scopes
      && Verified(s'.auth, reply.access, now).Some?
  {
    var client := AuthenticateClient(o, s, r.clientId, r.secret).client;
    DecidesFor(s, client, r, now, n);
    IssuedTokensLive(o, Decide(s, client, r, now, n).0, Decide(s, client, r, now, n).1, now, n);
  }

  /** A refresh token sent along belongs to the same client and family; public and module clients always get one. */
  lemma RefreshTokenGoesAlong(o: Options, s: Server, r: TokenRequest, now: int, n: Nonces)
    requires Invariant(s) && NoncesNew(s.auth.log, n) && Exchange(o, s, r, now, n).1.TokensSent?
    requires o.accessTtlMs > 0 && o.refreshTtlMs > 0
    ensures var (s', reply) := Exchange(o, s, r, now, n);
      var client := AuthenticateClient(o, s, r.clientId, r.secret).client;
      && (reply.refresh.Some? ==>
            && reply.refresh.value in s'.auth.live && s'.auth.live[reply.refresh.value].clientId == client.id
            && s'.auth.live[reply.refresh.value].kind == Refresh
            && reply.access in s'.auth.live
            && s'.auth.live[reply.refresh.value].family == s'.auth.live[reply.access].family)
      && (client.kind == Public || client.kind == Module ==> reply.refresh.Some?)
  {
    var client := AuthenticateClient(o, s, r.clientId, r.secret).client;
    DecidesFor(s, client, r, now, n);
    IssuedTokensLive(o, Decide(s, client, r, now, n).0, Decide(s, client, r, now, n).1, now, n);
  }

  /** A module client's code joins the family of the sign-in that authorized it, and signing that browser out ends
      the code with every credential of the family. */
  lemma ModuleCodeFallsWithSession(o: Options, s: Server, r: AuthorizeRequest, now: int, n: Nonces, later: int)
    requires Invariant(s) && NoncesNew(s.auth.log, n)
    requires LookupClient(o, s, r.clientId).Found? && LookupClient(o, s, r.clientId).client.kind == Module
    requires SessionOf(s, r.cookie, now).Some? && Authorize(o, s, r, now, n).1.CodeSent?
    ensures var s' := Authorize(o, s, r, now, n).0;
      var session := SessionOf(s, r.cookie, now).value;
      && n.first in s'.codes && s'.codes[n.first].family == session.family
      && (later < session.expiresAt ==> FamilyEmpty(EndSession(s', r.cookie, later).0, session.family))
  {
    var s1, session := AfterLookup(s, r.cookie, now), SessionOf(s, r.cookie, now).value;
    assert s1 == s;
    var s' := Authorize(o, s, r, now, n).0;
    assert s'.auth.live == s.auth.live;
    SessionEnds(s', r.cookie, later);
  }

  /** Signing a browser out empties the family of its session. */
  lemma SessionEnds(s: Server, cookie: Option<Token>, now: int)
    ensures SessionOf(s, cookie, now).Some? ==>
      FamilyEmpty(EndSession(s, cookie, now).0, SessionOf(s, cookie, now).value.family)
  {
  }
}
