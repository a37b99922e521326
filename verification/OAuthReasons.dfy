/** Why anything happens at the authorization server: the request behind every entry of every history, and what no request takes
    away. */
module OAuthReasons {
  import opened CredentialAuthority
  import opened OAuthServer
  import opened OAuthRuns
  import opened OAuthSafety
  import opened OAuthAnswers
  import opened Optional

  // ----- what stands behind an entry -----

  /** The two tokens of one answer: an access token under the first name, a refresh token under the second. */
  predicate Pair(o: Options, token: Token, claims: Claims, now: int, n: Nonces) {
    || (token == n.first && claims.kind == Access && claims.expiresAt == now + o.accessTtlMs)
    || (token == n.second && claims.kind == Refresh && claims.expiresAt == now + o.refreshTtlMs)
  }

  /** The claims are those the request entitles the client to. */
  ghost predicate Earns(s: Server, client: Client, r: TokenRequest, n: Nonces, claims: Claims, source: Source) {
    && claims.clientId == client.id
    && match r.grant
       case AuthorizationCode(code, _, _) =>
         && source == FromCode(code) && code in s.codes && claims.subject == OPERATOR_SUBJECT
         && claims.scopes == s.codes[code].scopes && claims.family == s.codes[code].family
       case RefreshToken(t) =>
         && source == FromRefresh(t) && t in s.auth.live && claims.subject == s.auth.live[t].subject
         && Grants(r.scope, s.auth.live[t].scopes, claims.scopes) && claims.family == s.auth.live[t].family
       case ClientCredentials =>
         && source == FromClient(client.scopes) && claims.kind == Access && claims.family == n.family
         && claims.subject == (if client.id == OPERATOR_CLIENT then OPERATOR_SUBJECT else client.id)
         && Grants(r.scope, client.scopes, claims.scopes)
       case OtherGrant => false
  }

  /** The event grants or issues what the entry says. */
  ghost predicate Gives(o: Options, s: Server, e: Event, entry: Entry, client: Client) {
    match entry
    case Granted(code, grant, allowed, session, joins) =>
      && e.Authorization? && Knows(o, s, e.authorize.clientId, client) && InOrder(client, e.authorize)
      && (SignsOn(o, s, e.authorize, e.now) || Consents(s, client, e.authorize, e.now))
      && code == e.nonces.first && session == SessionFamily(s, e.authorize, e.now, e.nonces)
      && Asked(client, e.authorize, session, e.now, e.nonces, grant) && allowed == client.scopes && joins == (client.kind == Module)
    case Issued(token, claims, FromSignIn) =>
      && e.Authorization? && Knows(o, s, e.authorize.clientId, client) && InOrder(client, e.authorize) && SignsOn(o, s, e.authorize, e.now)
      && token == e.nonces.second
      && claims == Claims(Session, OPERATOR_SUBJECT, BROWSER, SCOPES, e.nonces.session, e.now + o.refreshTtlMs)
    case Issued(token, claims, source) =>
      && e.TokenCall? && Proves(o, s, e.exchange.clientId, e.exchange.secret, client)
      && Entitled(s, client, e.exchange, e.now) && e.exchange.resourceKnown
      && Pair(o, token, claims, e.now, e.nonces) && Earns(s, client, e.exchange, e.nonces, claims, source)
    case Revoked(_) => false
  }

  /** The token request shows that the family has leaked: another client's code or refresh token, or one exchanged before. */
  predicate Leaks(s: Server, client: Client, g: Grant, now: int, family: Family) {
    match g
    case AuthorizationCode(code, _, _) =>
      code in s.codes && now < s.codes[code].expiresAt && s.codes[code].clientId != client.id && s.codes[code].family == family
    case RefreshToken(t) =>
      || (Holds(s, t, Refresh, now) && s.auth.live[t].clientId != client.id && s.auth.live[t].family == family)
      || (!(t in s.auth.live && now < s.auth.live[t].expiresAt)
          && t in s.auth.retired && now < s.auth.retired[t].expiresAt && s.auth.retired[t].family == family)
    case _ => false
  }

  /** The event ends the family: from outside, by its client, by signing out, or because it has leaked. */
  ghost predicate Ends(o: Options, s: Server, e: Event, family: Family) {
    match e
    case OutsideRevocation(f) => family == f
    case SignOut(cookie, now) => cookie.Some? && Holds(s, cookie.value, Session, now) && s.auth.live[cookie.value].family == family
    case Revocation(id, secret, token, now) =>
      && token.Some? && token.value in s.auth.live && now < s.auth.live[token.value].expiresAt
      && s.auth.live[token.value].family == family
      && exists client :: Proves(o, s, id, secret, client) && s.auth.live[token.value].clientId == client.id
    case TokenCall(r, now, _) => exists client :: Proves(o, s, r.clientId, r.secret, client) && Leaks(s, client, r.grant, now, family)
    case _ => false
  }

  ghost predicate Given(o: Options, s: Server, e: Event, entry: Entry) {
    exists client :: Gives(o, s, e, entry, client)
  }

  /** What a code's issue adds to the history. */
  lemma CodeIssuedAdds(o: Options, s: Server, client: Client, r: AuthorizeRequest, scopes: seq<Scope>, now: int, n: Nonces)
    requires r.redirectUri.Some? && r.challenge.Some?
    ensures var family := SessionFamily(s, r, now, n);
      var code := GrantFor(client, r.redirectUri.value, r.challenge.value, scopes, family, now, n);
      CodeIssued(o, s, client, r, scopes, now, n).auth.log
        == s.auth.log
         + (if CarriesSession(s, r, now) then [] else [Issued(n.second, SignInClaims(o, now, n), FromSignIn)])
         + [Granted(n.first, code, client.scopes, family, client.kind == Module)]
  {
    assert CarriesSession(s, r, now) ==> s.auth.log + [] == s.auth.log;
  }

  lemma AuthorizationGives(o: Options, s: Server, e: Event, entry: Entry)
    requires e.Authorization? && entry in Step(o, s, e).auth.log
    ensures entry in s.auth.log || Given(o, s, e, entry)
  {
    var r, now, n := e.authorize, e.now, e.nonces;
    AuthorizeOutcome(o, s, r, now, n);
    if Authorize(o, s, r, now, n).1.CodeSent? && entry !in s.auth.log {
      var client := LookupClient(o, s, r.clientId).client;
      var scopes := GrantedScopes(r.scope, client.scopes).value;
      KnowsExactly(o, s, r.clientId, client);
      CodeSentTo(o, s, r, now, n, client);
      CodeIssuedAdds(o, s, client, r, scopes, now, n);
      GrantIsAsked(client, r, scopes, SessionFamily(s, r, now, n), now, n);
      assert Gives(o, s, e, entry, client);
    }
  }

  lemma IssuedAre(o: Options, s: Server, d: Decision, now: int, n: Nonces, entry: Entry)
    requires d.Accept? && entry in IssueTokens(o, s, d, now, n).auth.log
    ensures entry in s.auth.log
      || (entry.Issued? && entry.source == d.source && Pair(o, entry.token, entry.claims, now, n)
          && entry.claims.subject == d.subject && entry.claims.clientId == d.clientId
          && entry.claims.scopes == d.scopes && entry.claims.family == d.family && (entry.claims.kind == Access || d.refresh))
  {
  }

  lemma DecisionIs(s: Server, client: Client, r: TokenRequest, now: int, n: Nonces)
    ensures var (s1, d) := Decide(s, client, r, now, n);
      && (forall x :: x in s1.auth.log ==> x in s.auth.log || x.Revoked?)
      && (forall x :: x in s.auth.log ==> x in s1.auth.log)
  {
  }

  lemma AcceptedEarns(s: Server, client: Client, r: TokenRequest, now: int, n: Nonces)
    ensures var d := Decide(s, client, r, now, n).1;
      (d.Accept? ==> forall claims: Claims ::
            (claims.subject == d.subject && claims.clientId == d.clientId && claims.scopes == d.scopes && claims.family == d.family
             && (claims.kind == Access || d.refresh)) ==> Earns(s, client, r, n, claims, d.source))
  {
    GrantedAre(r.scope, client.scopes);
    if r.grant.RefreshToken? && r.grant.presented in s.auth.live {
      GrantedAre(r.scope, s.auth.live[r.grant.presented].scopes);
    }
  }

  lemma ExchangeGives(o: Options, s: Server, e: Event, entry: Entry)
    requires e.TokenCall? && entry in Step(o, s, e).auth.log && !entry.Revoked?
    ensures entry in s.auth.log || Given(o, s, e, entry)
  {
    var r, now, n := e.exchange, e.now, e.nonces;
    var who := AuthenticateClient(o, s, r.clientId, r.secret);
    if who.Found? && entry !in s.auth.log {
      var (s1, d) := Decide(s, who.client, r, now, n);
      AuthenticatesExactly(o, s, r.clientId, r.secret, who.client);
      DecidesExactly(s, who.client, r, now, n);
      DecisionIs(s, who.client, r, now, n);
      AcceptedEarns(s, who.client, r, now, n);
      IssuedAre(o, s1, d, now, n, entry);
      assert Gives(o, s, e, entry, who.client);
    }
  }

  /** Nothing is granted or issued that the request does not ask for and entitle to. */
  lemma StepGives(o: Options, s: Server, e: Event, entry: Entry)
    requires entry in Step(o, s, e).auth.log && !entry.Revoked?
    ensures entry in s.auth.log || Given(o, s, e, entry)
  {
    match e {
      case Authorization(_, _, _) => AuthorizationGives(o, s, e, entry);
      case TokenCall(_, _, _) => ExchangeGives(o, s, e, entry);
      case _ =>
    }
  }

  // ----- what stands behind a revocation -----

  lemma IssuesRevokeNothing(o: Options, s: Server, d: Decision, now: int, n: Nonces, family: Family)
    requires d.Accept?
    ensures Revoked(family) in IssueTokens(o, s, d, now, n).auth.log <==> Revoked(family) in s.auth.log
  {
  }

  lemma DecisionRevokes(s: Server, client: Client, r: TokenRequest, now: int, n: Nonces, family: Family)
    ensures Revoked(family) in Decide(s, client, r, now, n).0.auth.log
       <==> Revoked(family) in s.auth.log || Leaks(s, client, r.grant, now, family)
  {
  }

  lemma ExchangeEnds(o: Options, s: Server, e: Event, family: Family)
    requires e.TokenCall?
    ensures Revoked(family) in Step(o, s, e).auth.log <==> Revoked(family) in s.auth.log || Ends(o, s, e, family)
  {
    var r, now, n := e.exchange, e.now, e.nonces;
    var who := AuthenticateClient(o, s, r.clientId, r.secret);
    if who.Found? {
      var (s1, d) := Decide(s, who.client, r, now, n);
      OnlyOneProves(o, s, r.clientId, r.secret, who.client);
      DecisionRevokes(s, who.client, r, now, n, family);
      if d.Accept? {
        IssuesRevokeNothing(o, s1, d, now, n, family);
      }
    } else {
      NobodyProves(o, s, r.clientId, r.secret);
    }
  }

  lemma RevocationEnds(o: Options, s: Server, e: Event, family: Family)
    requires e.Revocation?
    ensures Revoked(family) in Step(o, s, e).auth.log <==> Revoked(family) in s.auth.log || Ends(o, s, e, family)
  {
    var who := AuthenticateClient(o, s, e.id, e.secret);
    if who.Found? {
      OnlyOneProves(o, s, e.id, e.secret, who.client);
    } else {
      NobodyProves(o, s, e.id, e.secret);
    }
  }

  lemma AuthorizationEndsNothing(o: Options, s: Server, e: Event, family: Family)
    requires e.Authorization?
    ensures Revoked(family) in Step(o, s, e).auth.log <==> Revoked(family) in s.auth.log
  {
    AuthorizeOutcome(o, s, e.authorize, e.now, e.nonces);
    if Authorize(o, s, e.authorize, e.now, e.nonces).1.CodeSent? {
      var client := LookupClient(o, s, e.authorize.clientId).client;
      CodeIssuedAdds(o, s, client, e.authorize, GrantedScopes(e.authorize.scope, client.scopes).value, e.now, e.nonces);
    }
  }

  /** A family is revoked exactly by an event that ends it. */
  lemma RevokedExactly(o: Options, s: Server, e: Event, family: Family)
    ensures Revoked(family) in Step(o, s, e).auth.log <==> Revoked(family) in s.auth.log || Ends(o, s, e, family)
  {
    match e {
      case Authorization(_, _, _) => AuthorizationEndsNothing(o, s, e, family);
      case TokenCall(_, _, _) => ExchangeEnds(o, s, e, family);
      case Revocation(_, _, _, _) => RevocationEnds(o, s, e, family);
      case _ =>
    }
  }

  // ----- over runs -----

  ghost predicate HasReason(o: Options, s: Server, e: Event, entry: Entry) {
    if entry.Revoked? then Ends(o, s, e, entry.family) else Given(o, s, e, entry)
  }

  /** The event in place `k` of a run is what the entry comes from. */
  ghost predicate Behind(o: Options, start: Server, events: seq<Event>, k: nat, entry: Entry) {
    k < |events| && HasReason(o, Run(o, start, events[..k]), events[k], entry)
  }

  /** In every run each grant, issue and revocation has the request behind it that asks for it and may have it. */
  lemma {:induction false} EveryEntryHasItsRequest(o: Options, start: Server, events: seq<Event>, entry: Entry) returns (k: nat)
    requires start.auth.log == [] && entry in Run(o, start, events).auth.log
    ensures Behind(o, start, events, k, entry)
    decreases |events|
  {
    var last := |events| - 1;
    var before := Run(o, start, events[..last]);
    if entry in before.auth.log {
      k := EveryEntryHasItsRequest(o, start, events[..last], entry);
      assert events[..last][..k] == events[..k];
    } else {
      k := last;
      if entry.Revoked? {
        RevokedExactly(o, before, events[last], entry.family);
      } else {
        StepGives(o, before, events[last], entry);
      }
    }
  }

  /** The event is a sign-in with the operator's password. */
  predicate KnewThePassword(o: Options, e: Event) {
    e.Authorization? && e.authorize.isPost && e.authorize.password == Some(o.password) && o.password != ""
  }

  /** No session was ever established without the operator's password. */
  lemma SignInsKnewThePassword(o: Options, start: Server, events: seq<Event>, entry: Entry)
    requires start.auth.log == [] && entry in Run(o, start, events).auth.log && entry.Issued? && entry.source.FromSignIn?
    ensures exists k: nat :: k < |events| && KnewThePassword(o, events[k]) && events[k].nonces.second == entry.token
  {
    var k := EveryEntryHasItsRequest(o, start, events, entry);
  }

  /** The operator allowed the request: a module's needs no consent, any other was posted it. */
  predicate Allowed(e: Event, joins: bool) {
    e.Authorization? && (joins || (e.authorize.isPost && e.authorize.consent == Some("allow")))
  }

  /** No code was ever granted without the operator: its request was allowed within a session that a sign-in with the password
      established, or is such a sign-in itself. */
  lemma GrantsWereAllowed(o: Options, start: Server, events: seq<Event>, s: Server, entry: Entry)
    requires Reached(o, start, events, s) && entry in s.auth.log && entry.Granted?
    ensures exists k: nat :: (k < |events| && events[k].Authorization? && events[k].nonces.first == entry.code
                              && (KnewThePassword(o, events[k]) || Allowed(events[k], entry.joins)))
    ensures exists j: nat :: j < |events| && KnewThePassword(o, events[j]) && events[j].nonces.session == entry.session
  {
    var k := EveryEntryHasItsRequest(o, start, events, entry);
    ReachedIsSound(o, start, events, s);
    GrantedInSession(s.auth.log, entry);
    var e :| e in s.auth.log && e.Issued? && e.claims.kind == Session && e.claims.family == entry.session;
    SessionsAreSignIns(s.auth.log, e);
    var j := EveryEntryHasItsRequest(o, start, events, e);
  }

  lemma {:induction false} GrantedInSession(log: Log, g: Entry)
    requires LogOk(log) && g in log && g.Granted?
    ensures exists e :: e in log && e.Issued? && e.claims.kind == Session && e.claims.family == g.session
    decreases |log|
  {
    var before, last := log[..|log| - 1], log[|log| - 1];
    assert log == before + [last];
    if g in before {
      GrantedInSession(before, g);
      var e :| e in before && e.Issued? && e.claims.kind == Session && e.claims.family == g.session;
      assert e in log;
    } else {
      assert EntryOk(before, g);
      var e :| e in before && e.Issued? && e.claims.kind == Session && e.claims.family == g.session;
      assert e in log;
    }
  }

  lemma {:induction false} SessionsAreSignIns(log: Log, e: Entry)
    requires LogOk(log) && e in log && e.Issued? && e.claims.kind == Session
    ensures e.source.FromSignIn?
    decreases |log|
  {
    var before, last := log[..|log| - 1], log[|log| - 1];
    assert log == before + [last];
    if e in before {
      SessionsAreSignIns(before, e);
    } else {
      assert EntryOk(before, e);
    }
  }

  /** The event redeems the granted code in time: it proves to be the code's client and shows the verifier of its challenge and
      its redirect. */
  ghost predicate Redeemed(o: Options, s: Server, e: Event, g: Entry) {
    && g.Granted? && e.TokenCall? && e.now < g.grant.expiresAt && e.exchange.resourceKnown
    && e.exchange.grant == AuthorizationCode(g.code, Some(g.grant.challenge), Some(g.grant.redirectUri))
    && exists client :: Proves(o, s, e.exchange.clientId, e.exchange.secret, client) && client.id == g.grant.clientId
  }

  /** No token was ever issued for a code but on such a request. */
  lemma CodesWereRedeemed(o: Options, start: Server, events: seq<Event>, s: Server, entry: Entry)
    requires Reached(o, start, events, s) && entry in s.auth.log && entry.Issued? && entry.source.FromCode?
    ensures exists k: nat, g :: (k < |events| && g in s.auth.log && g.Granted? && g.code == entry.source.code
                                 && Redeemed(o, Run(o, start, events[..k]), events[k], g))
  {
    var k := EveryEntryHasItsRequest(o, start, events, entry);
    var before := Run(o, start, events[..k]);
    PrefixIsReached(o, start, events, k);
    ReachedIsSound(o, start, events[..k], before);
    var client :| Gives(o, before, events[k], entry, client);
    var code := entry.source.code;
    var g :| g in before.auth.log && g.Granted? && g.code == code && g.grant == before.codes[code];
    assert Proves(o, before, events[k].exchange.clientId, events[k].exchange.secret, client) && client.id == g.grant.clientId;
    assert Redeemed(o, before, events[k], g);
    HistoryGrows(o, start, events, k, g);
  }

  lemma {:induction false} PrefixIsReached(o: Options, start: Server, events: seq<Event>, k: nat)
    requires Initial(start) && Feasible(o, start, events) && k <= |events|
    ensures Feasible(o, start, events[..k])
    decreases |events|
  {
    if k < |events| {
      PrefixIsReached(o, start, events[..|events| - 1], k);
      assert events[..|events| - 1][..k] == events[..k];
    } else {
      assert events[..k] == events;
    }
  }

  lemma IssuesRemember(o: Options, s: Server, d: Decision, now: int, n: Nonces, entry: Entry)
    requires d.Accept? && entry in s.auth.log
    ensures entry in IssueTokens(o, s, d, now, n).auth.log
  {
  }

  /** Nothing leaves the history. */
  lemma StepRemembers(o: Options, s: Server, e: Event, entry: Entry)
    requires entry in s.auth.log
    ensures entry in Step(o, s, e).auth.log
  {
    match e {
      case Authorization(r, now, n) =>
        AuthorizeOutcome(o, s, r, now, n);
        if Authorize(o, s, r, now, n).1.CodeSent? {
          var client := LookupClient(o, s, r.clientId).client;
          CodeIssuedAdds(o, s, client, r, GrantedScopes(r.scope, client.scopes).value, now, n);
        }
      case TokenCall(r, now, n) =>
        var who := AuthenticateClient(o, s, r.clientId, r.secret);
        if who.Found? {
          var (s1, d) := Decide(s, who.client, r, now, n);
          DecisionIs(s, who.client, r, now, n);
          if d.Accept? {
            IssuesRemember(o, s1, d, now, n, entry);
          }
        }
      case _ =>
    }
  }

  lemma {:induction false} HistoryGrows(o: Options, start: Server, events: seq<Event>, k: nat, entry: Entry)
    requires k <= |events| && entry in Run(o, start, events[..k]).auth.log
    ensures entry in Run(o, start, events).auth.log
    decreases |events|
  {
    if k < |events| {
      assert events[..|events| - 1][..k] == events[..k];
      HistoryGrows(o, start, events[..|events| - 1], k, entry);
      StepRemembers(o, Run(o, start, events[..|events| - 1]), events[|events| - 1], entry);
    } else {
      assert events[..k] == events;
    }
  }

  /** The token the event looks up, once it gets so far. */
  ghost predicate LooksUp(o: Options, s: Server, e: Event, token: Token) {
    match e
    case Authorization(r, _, _) => r.cookie == Some(token) && exists client :: Knows(o, s, r.clientId, client) && InOrder(client, r)
    case Revocation(id, secret, presented, _) => presented == Some(token) && exists client :: Proves(o, s, id, secret, client)
    case SignOut(cookie, _) => cookie == Some(token)
    case Verification(presented, _) => presented == Some(token)
    case _ => false
  }

  /** A token that is looked up after its time is live no more. */
  lemma ExpiredIsForgotten(o: Options, s: Server, e: Event, token: Token)
    requires LooksUp(o, s, e, token) && token in s.auth.live && !InTime(e, s.auth.live[token].expiresAt) && Fresh(e, token)
    ensures token !in Step(o, s, e).auth.live
  {
    match e {
      case Authorization(r, now, n) =>
        var client :| Knows(o, s, r.clientId, client) && InOrder(client, r);
        KnowsExactly(o, s, r.clientId, client);
        ExpiredCookie(o, s, r, now, n, client, token);
      case Revocation(id, secret, _, _) =>
        var client :| Proves(o, s, id, secret, client);
        AuthenticatesExactly(o, s, id, secret, client);
      case _ =>
    }
  }

  lemma ExpiredCookie(o: Options, s: Server, r: AuthorizeRequest, now: int, n: Nonces, client: Client, token: Token)
    requires LookupClient(o, s, r.clientId) == Found(client) && InOrder(client, r) && r.cookie == Some(token)
    requires token in s.auth.live && s.auth.live[token].expiresAt <= now && token != n.second
    ensures token !in Authorize(o, s, r, now, n).0.auth.live
  {
    GrantedAre(r.scope, client.scopes);
  }

  // ----- what no request takes away -----

  function TimeOf(e: Event): Option<int> {
    match e
    case Authorization(_, now, _) => Some(now)
    case TokenCall(_, now, _) => Some(now)
    case Revocation(_, _, _, now) => Some(now)
    case SignOut(_, now) => Some(now)
    case Verification(_, now) => Some(now)
    case _ => None
  }

  /** The event comes in time for something that expires then. */
  predicate InTime(e: Event, expiresAt: int) {
    TimeOf(e).Some? ==> TimeOf(e).value < expiresAt
  }

  predicate Fresh(e: Event, name: Token) {
    (e.Authorization? || e.TokenCall?) ==> name != e.nonces.first && name != e.nonces.second
  }

  /** The event exchanges the refresh token. */
  ghost predicate Exchanges(o: Options, s: Server, e: Event, token: Token) {
    && e.TokenCall? && e.exchange.grant == RefreshToken(token)
    && exists client :: Proves(o, s, e.exchange.clientId, e.exchange.secret, client) && Entitled(s, client, e.exchange, e.now)
  }

  lemma IssuesKeepLive(o: Options, s: Server, d: Decision, now: int, n: Nonces, token: Token)
    requires d.Accept? && token in s.auth.live && now < s.auth.live[token].expiresAt && token != n.first && token != n.second
    ensures var r := IssueTokens(o, s, d, now, n); token in r.auth.live && r.auth.live[token] == s.auth.live[token]
  {
  }

  lemma RefreshKeepsLive(s: Server, client: Client, r: TokenRequest, presented: Token, now: int, token: Token)
    requires token in s.auth.live && now < s.auth.live[token].expiresAt && r.grant == RefreshToken(presented)
    requires !Leaks(s, client, r.grant, now, s.auth.live[token].family)
    requires presented == token ==> !Entitled(s, client, r, now)
    ensures var s1 := RedeemRefresh(s, client, presented, r.scope, now).0; token in s1.auth.live && s1.auth.live[token] == s.auth.live[token]
  {
    GrantedAre(r.scope, s.auth.live[token].scopes);
  }

  lemma DecisionKeepsLive(s: Server, client: Client, r: TokenRequest, now: int, n: Nonces, token: Token)
    requires token in s.auth.live && now < s.auth.live[token].expiresAt
    requires !Leaks(s, client, r.grant, now, s.auth.live[token].family)
    requires r.grant == RefreshToken(token) ==> !Entitled(s, client, r, now)
    ensures var s1 := Decide(s, client, r, now, n).0; token in s1.auth.live && s1.auth.live[token] == s.auth.live[token]
  {
    if r.grant.RefreshToken? {
      RefreshKeepsLive(s, client, r, r.grant.presented, now, token);
    }
  }

  lemma ExchangeKeepsLive(o: Options, s: Server, e: Event, token: Token)
    requires e.TokenCall? && token in s.auth.live && InTime(e, s.auth.live[token].expiresAt) && Fresh(e, token)
    requires !Ends(o, s, e, s.auth.live[token].family) && !Exchanges(o, s, e, token)
    ensures var r := Step(o, s, e); token in r.auth.live && r.auth.live[token] == s.auth.live[token]
  {
    var r, now, n := e.exchange, e.now, e.nonces;
    var who := AuthenticateClient(o, s, r.clientId, r.secret);
    if who.Found? {
      OnlyOneProves(o, s, r.clientId, r.secret, who.client);
      DecisionKeepsLive(s, who.client, r, now, n, token);
      var (s1, d) := Decide(s, who.client, r, now, n);
      if d.Accept? {
        IssuesKeepLive(o, s1, d, now, n, token);
      }
    }
  }

  lemma AuthorizationKeepsLive(o: Options, s: Server, e: Event, token: Token)
    requires e.Authorization? && token in s.auth.live && InTime(e, s.auth.live[token].expiresAt) && Fresh(e, token)
    ensures var r := Step(o, s, e); token in r.auth.live && r.auth.live[token] == s.auth.live[token]
  {
    AuthorizeOutcome(o, s, e.authorize, e.now, e.nonces);
  }

  /** A credential stays live, with the same claims, until its time passes, its family is ended or it is exchanged. */
  lemma LiveUntilEnded(o: Options, s: Server, e: Event, token: Token)
    requires token in s.auth.live && InTime(e, s.auth.live[token].expiresAt) && Fresh(e, token)
    requires !Ends(o, s, e, s.auth.live[token].family) && !Exchanges(o, s, e, token)
    ensures var r := Step(o, s, e); token in r.auth.live && r.auth.live[token] == s.auth.live[token]
  {
    match e {
      case Authorization(_, _, _) => AuthorizationKeepsLive(o, s, e, token);
      case TokenCall(_, _, _) => ExchangeKeepsLive(o, s, e, token);
      case Revocation(id, secret, _, _) =>
        var who := AuthenticateClient(o, s, id, secret);
        if who.Found? {
          OnlyOneProves(o, s, id, secret, who.client);
        }
      case _ =>
    }
  }

  /** The event presents the code, as some client. */
  ghost predicate Presents(o: Options, s: Server, e: Event, code: Token) {
    && e.TokenCall? && e.exchange.grant.AuthorizationCode? && e.exchange.grant.code == code
    && exists client :: Proves(o, s, e.exchange.clientId, e.exchange.secret, client)
  }

  lemma ExchangeKeepsCode(o: Options, s: Server, e: Event, code: Token)
    requires e.TokenCall? && code in s.codes
    requires !Ends(o, s, e, s.codes[code].family) && !Presents(o, s, e, code)
    ensures var r := Step(o, s, e); code in r.codes && r.codes[code] == s.codes[code]
  {
    var r, now, n := e.exchange, e.now, e.nonces;
    var who := AuthenticateClient(o, s, r.clientId, r.secret);
    if who.Found? {
      OnlyOneProves(o, s, r.clientId, r.secret, who.client);
      assert !Leaks(s, who.client, r.grant, now, s.codes[code].family);
      DecisionKeepsCode(s, who.client, r, now, n, code);
    }
  }

  lemma DecisionKeepsCode(s: Server, client: Client, r: TokenRequest, now: int, n: Nonces, code: Token)
    requires code in s.codes && !Leaks(s, client, r.grant, now, s.codes[code].family)
    requires r.grant.AuthorizationCode? ==> r.grant.code != code
    ensures var s1 := Decide(s, client, r, now, n).0; code in s1.codes && s1.codes[code] == s.codes[code]
  {
  }

  /** A code stays pending as it was granted until its time passes, its family is ended or a client presents it. */
  lemma PendingUntilPresented(o: Options, s: Server, e: Event, code: Token)
    requires code in s.codes && InTime(e, s.codes[code].expiresAt) && Fresh(e, code)
    requires !Ends(o, s, e, s.codes[code].family) && !Presents(o, s, e, code)
    ensures var r := Step(o, s, e); code in r.codes && r.codes[code] == s.codes[code]
  {
    match e {
      case Authorization(r, now, n) => AuthorizeOutcome(o, s, r, now, n);
      case TokenCall(_, _, _) => ExchangeKeepsCode(o, s, e, code);
      case Revocation(id, secret, _, _) =>
        var who := AuthenticateClient(o, s, id, secret);
        if who.Found? {
          OnlyOneProves(o, s, id, secret, who.client);
        }
      case _ =>
    }
  }
}
