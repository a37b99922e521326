/** What every run of the authorization server keeps. The history of a run is checked entry by entry
    against what came before it (`LogOk`); the live state is tied to that history (`Invariant`). */
module OAuthRuns {
  import opened CredentialAuthority
  import opened OAuthServer
  import opened Optional

  type Log = seq<Entry>

  ghost predicate IssuedAs(log: Log, token: Token, claims: Claims) {
    exists e :: e in log && e.Issued? && e.token == token && e.claims == claims
  }

  ghost predicate SameGrantee(a: Claims, b: Claims) {
    a.subject == b.subject && a.clientId == b.clientId && a.family == b.family
  }

  /** `claims` redeem the code of `g`: the operator's grant, exactly as it was authorized. */
  ghost predicate Redeems(claims: Claims, g: Code) {
    && claims.subject == OPERATOR_SUBJECT && claims.clientId == g.clientId
    && claims.family == g.family && claims.scopes == g.scopes
  }

  /** `e` issued the refresh token `presented`, to the same grantee and with scopes enough for `claims`. */
  ghost predicate Refreshes(e: Entry, presented: Token, claims: Claims) {
    && e.Issued? && e.token == presented && e.claims.kind == Refresh
    && SameGrantee(claims, e.claims) && Within(claims.scopes, e.claims.scopes)
  }

  /** A credential was issued for a reason that justifies it, and for that reason only once per kind. */
  ghost predicate Justified(before: Log, claims: Claims, source: Source) {
    match source
    case FromSignIn => claims.kind == Session && claims.subject == OPERATOR_SUBJECT
    case FromClient(allowed) => claims.kind == Access && Within(claims.scopes, allowed)
    case FromCode(code) =>
      && claims.kind != Session
      && (exists e :: e in before && e.Granted? && e.code == code && Redeems(claims, e.grant))
      && (forall e :: e in before && e.Issued? && e.source == source ==> e.claims.kind != claims.kind)
    case FromRefresh(presented) =>
      && claims.kind != Session
      && (exists e :: e in before && Refreshes(e, presented, claims))
      && (forall e :: e in before && e.Issued? && e.source == source ==> e.claims.kind != claims.kind)
  }

  /** An entry may follow `before`: nothing is granted or issued into a revoked family, codes and tokens are
      new, scopes stay within what the client registered, and a module's code joins a sign-in's family. */
  ghost predicate EntryOk(before: Log, entry: Entry) {
    match entry
    case Revoked(_) => true
    case Granted(code, grant, allowed, session, joins) =>
      && (forall e :: e in before && e.Granted? ==> e.code != code)
      && Revoked(grant.family) !in before
      && Within(grant.scopes, allowed)
      && Revoked(session) !in before
      && (exists e :: e in before && e.Issued? && e.claims.kind == Session && e.claims.family == session)
      && (joins ==> grant.family == session)
      && (!joins ==> forall e :: e in before && e.Issued? ==> e.claims.family != grant.family)
    case Issued(token, claims, source) =>
      && (forall e :: e in before && e.Issued? ==> e.token != token)
      && Revoked(claims.family) !in before
      && Justified(before, claims, source)
  }

  ghost predicate LogOk(log: Log) {
    log == [] || (LogOk(log[..|log| - 1]) && EntryOk(log[..|log| - 1], log[|log| - 1]))
  }

  /** The authorization code a credential descends from, through any number of refreshes. */
  ghost function Origin(log: Log, token: Token): Option<Token>
    decreases |log|, 0
  {
    if log == [] then None
    else
      var before, last := log[..|log| - 1], log[|log| - 1];
      if last.Issued? && last.token == token then SourceOrigin(before, last.source) else Origin(before, token)
  }

  ghost function SourceOrigin(before: Log, source: Source): Option<Token>
    decreases |before|, 1
  {
    match source
    case FromCode(code) => Some(code)
    case FromRefresh(presented) => Origin(before, presented)
    case _ => None
  }

  // ----- the invariant -----

  ghost predicate LiveKnown(a: Authority) {
    forall t :: t in a.live ==> IssuedAs(a.log, t, a.live[t]) && Revoked(a.live[t].family) !in a.log
  }

  ghost predicate RetiredKnown(a: Authority) {
    forall t :: t in a.retired ==>
      && t !in a.live && Revoked(a.retired[t].family) !in a.log
      && exists e :: e in a.log && e.Issued? && e.token == t
  }

  ghost predicate AgreesWithLog(a: Authority) {
    forall e :: e in a.log && e.Issued? ==>
      && (e.token in a.live ==> a.live[e.token] == e.claims)
      && (e.token in a.retired ==>
            e.claims.kind == Refresh && a.retired[e.token] == Retired(e.claims.family, e.claims.expiresAt))
  }

  ghost predicate CodesKnown(s: Server) {
    forall c :: c in s.codes ==>
      && (exists e :: e in s.auth.log && e.Granted? && e.code == c && e.grant == s.codes[c])
      && Revoked(s.codes[c].family) !in s.auth.log
      && forall e :: e in s.auth.log && e.Issued? ==> e.source != FromCode(c)
  }

  /** A refresh token that was exchanged is not live, and is remembered until it would have expired or its family ended. */
  ghost predicate SpentRemembered(a: Authority) {
    forall e, p :: e in a.log && p in a.log && e.Issued? && p.Issued? && e.source == FromRefresh(p.token) ==>
      && p.token !in a.live
      && (p.token in a.retired || Revoked(p.claims.family) in a.log || p.claims.expiresAt <= a.clock)
  }

  /** At most one live refresh token descends from one code. */
  ghost predicate OneLivePerCode(a: Authority) {
    forall t, u :: t in LiveRefresh(a) && u in LiveRefresh(a) && Origin(a.log, t).Some? && Origin(a.log, t) == Origin(a.log, u)
      ==> t == u
  }

  ghost function LiveRefresh(a: Authority): set<Token> {
    set t | t in a.live && a.live[t].kind == Refresh
  }

  ghost predicate Invariant(s: Server) {
    && LogOk(s.auth.log)
    && LiveKnown(s.auth) && RetiredKnown(s.auth) && AgreesWithLog(s.auth)
    && CodesKnown(s)
    && SpentRemembered(s.auth)
    && OneLivePerCode(s.auth)
  }

  // ----- what the elementary changes keep -----

  lemma AppendOk(log: Log, e: Entry)
    requires LogOk(log) && EntryOk(log, e)
    ensures LogOk(log + [e])
  {
    assert (log + [e])[..|log|] == log;
  }

  lemma OriginAppend(log: Log, e: Entry, t: Token)
    ensures !(e.Issued? && e.token == t) ==> Origin(log + [e], t) == Origin(log, t)
    ensures e.Issued? ==> Origin(log + [e], e.token) == SourceOrigin(log, e.source)
  {
    assert (log + [e])[..|log|] == log;
  }

  /** A credential descends from a code only if something was issued for that code. */
  lemma {:induction false} OriginWasRedeemed(log: Log, t: Token)
    requires Origin(log, t).Some?
    ensures exists e :: e in log && e.Issued? && e.source == FromCode(Origin(log, t).value)
    decreases |log|
  {
    var before, last := log[..|log| - 1], log[|log| - 1];
    assert forall e :: e in before ==> e in log;
    if last.Issued? && last.token == t {
      match last.source {
        case FromCode(code) =>
          assert last in log;
        case FromRefresh(presented) =>
          OriginWasRedeemed(before, presented);
      }
    } else {
      OriginWasRedeemed(before, t);
    }
  }

  /** Forgetting: credentials and codes go, retired tokens only once expired; the history stays. */
  ghost predicate Shrinks(s: Server, r: Server) {
    && r.auth.log == s.auth.log && r.auth.clock >= s.auth.clock
    && (forall t :: t in r.auth.live ==> t in s.auth.live && r.auth.live[t] == s.auth.live[t])
    && (forall t :: t in r.auth.retired ==> t in s.auth.retired && r.auth.retired[t] == s.auth.retired[t])
    && (forall t :: t in s.auth.retired && t !in r.auth.retired ==> s.auth.retired[t].expiresAt <= r.auth.clock)
    && (forall c :: c in r.codes ==> c in s.codes && r.codes[c] == s.codes[c])
  }

  lemma ShrinkKeeps(s: Server, r: Server)
    requires Invariant(s) && Shrinks(s, r)
    ensures Invariant(r)
  {
  }

  /** Lengthening the history by an entry that issues nothing disturbs no descent and no known credential. */
  lemma QuietAppend(log: Log, e: Entry)
    requires !e.Issued?
    ensures forall t {:trigger Origin(log + [e], t)} :: Origin(log + [e], t) == Origin(log, t)
    ensures forall t, c :: IssuedAs(log, t, c) ==> IssuedAs(log + [e], t, c)
  {
    forall t
      ensures Origin(log + [e], t) == Origin(log, t)
    {
      OriginAppend(log, e, t);
    }
    forall t, c | IssuedAs(log, t, c)
      ensures IssuedAs(log + [e], t, c)
    {
      var i :| i in log && i.Issued? && i.token == t && i.claims == c;
      assert i in log + [e];
    }
  }

  /** `r` is `s` with one more entry that issues nothing; a revocation takes its family's tokens with it. */
  ghost predicate QuietStep(s: Authority, r: Authority, e: Entry) {
    && !e.Issued? && EntryOk(s.log, e) && r.log == s.log + [e] && r.clock == s.clock
    && (forall t :: t in r.live ==> t in s.live && r.live[t] == s.live[t] && e != Revoked(s.live[t].family))
    && (forall t :: t in r.retired ==> t in s.retired && r.retired[t] == s.retired[t] && e != Revoked(s.retired[t].family))
    && (forall t :: t in s.retired && t !in r.retired ==> e == Revoked(s.retired[t].family))
  }

  lemma QuietTables(s: Authority, r: Authority, e: Entry)
    requires QuietStep(s, r, e) && LiveKnown(s) && RetiredKnown(s) && AgreesWithLog(s)
    ensures LiveKnown(r) && RetiredKnown(r) && AgreesWithLog(r)
  {
    QuietAppend(s.log, e);
    forall t | t in r.retired
      ensures exists i :: i in r.log && i.Issued? && i.token == t
    {
      var i :| i in s.log && i.Issued? && i.token == t;
      assert i in r.log;
    }
  }

  lemma QuietSpent(s: Authority, r: Authority, e: Entry)
    requires QuietStep(s, r, e) && SpentRemembered(s) && AgreesWithLog(s)
    ensures SpentRemembered(r)
  {
    assert e in r.log;
  }

  lemma QuietDescent(s: Authority, r: Authority, e: Entry)
    requires QuietStep(s, r, e) && OneLivePerCode(s)
    ensures OneLivePerCode(r)
  {
    QuietAppend(s.log, e);
    assert LiveRefresh(r) <= LiveRefresh(s);
  }

  lemma QuietKeeps(s: Server, r: Server, e: Entry)
    requires Invariant(s) && QuietStep(s.auth, r.auth, e) && CodesKnown(r)
    ensures Invariant(r)
  {
    AppendOk(s.auth.log, e);
    QuietTables(s.auth, r.auth, e);
    QuietSpent(s.auth, r.auth, e);
    QuietDescent(s.auth, r.auth, e);
  }

  lemma CodesStayKnown(s: Server, r: Server, e: Entry)
    requires CodesKnown(s) && !e.Issued? && r.auth.log == s.auth.log + [e]
    requires forall c :: c in r.codes ==> c in s.codes && r.codes[c] == s.codes[c] && e != Revoked(s.codes[c].family)
    ensures CodesKnown(r)
  {
    forall c | c in r.codes
      ensures exists x :: x in r.auth.log && x.Granted? && x.code == c && x.grant == r.codes[c]
    {
      var x :| x in s.auth.log && x.Granted? && x.code == c && x.grant == s.codes[c];
      assert x in r.auth.log;
    }
  }

  lemma RevokeKeeps(s: Server, family: Family)
    requires Invariant(s)
    ensures Invariant(RevokeGrants(s, family))
  {
    var r, e := RevokeGrants(s, family), Revoked(family);
    CodesStayKnown(s, r, e);
    QuietKeeps(s, r, e);
  }

  /** Retiring a live refresh token. */
  function Retire(s: Server, token: Token): Server
    requires token in s.auth.live
  {
    var claims := s.auth.live[token];
    s.(auth := s.auth.(live := s.auth.live - {token},
                       retired := s.auth.retired[token := Retired(claims.family, claims.expiresAt)]))
  }

  lemma RetireKeeps(s: Server, token: Token)
    requires Invariant(s) && token in s.auth.live && s.auth.live[token].kind == Refresh
    ensures Invariant(Retire(s, token))
  {
    assert IssuedAs(s.auth.log, token, s.auth.live[token]);
  }

  /** No live refresh token descends from `origin`. */
  ghost predicate Vacant(a: Authority, origin: Option<Token>) {
    origin.Some? ==> forall u :: u in LiveRefresh(a) ==> Origin(a.log, u) != origin
  }

  /** Everything an issue needs: a new token for a live family, justified, its code spent or its refresh token
      retired, and room for one more refresh token of its code. */
  ghost predicate MayIssue(s: Server, token: Token, claims: Claims, source: Source) {
    && EntryOk(s.auth.log, Issued(token, claims, source))
    && (source.FromCode? ==> source.code !in s.codes)
    && (source.FromRefresh? ==> source.presented in s.auth.retired || RetiredGone(s.auth, source.presented))
    && (claims.kind == Refresh ==> Vacant(s.auth, SourceOrigin(s.auth.log, source)))
  }

  ghost predicate RetiredGone(a: Authority, token: Token) {
    && token !in a.live
    && forall p :: p in a.log && p.Issued? && p.token == token ==> p.claims.expiresAt <= a.clock
  }

  function WithIssued(s: Server, claims: Claims, now: int, token: Token, source: Source): Server {
    s.(auth := Issue(s.auth, claims, now, token, source))
  }

  lemma SweepShrinks(s: Server, now: int)
    requires Invariant(s)
    ensures Shrinks(s, s.(auth := Sweep(s.auth, now)))
  {
  }

  lemma IssueKeeps(s: Server, claims: Claims, now: int, token: Token, source: Source)
    requires Invariant(s) && MayIssue(s, token, claims, source)
    ensures Invariant(WithIssued(s, claims, now, token, source))
  {
    var w := s.(auth := Sweep(s.auth, now));
    SweepShrinks(s, now);
    ShrinkKeeps(s, w);
    assert MayIssue(w, token, claims, source);
    AddIssued(w, claims, token, source, WithIssued(s, claims, now, token, source));
  }

  /** What a credential in a sound history was issued for is in that history too. */
  lemma {:induction false} SourcesPrecede(log: Log, e: Entry)
    requires LogOk(log) && e in log && e.Issued?
    ensures e.source.FromCode? ==> exists g :: g in log && g.Granted? && g.code == e.source.code && Redeems(e.claims, g.grant)
    ensures e.source.FromRefresh? ==> exists p :: p in log && Refreshes(p, e.source.presented, e.claims)
    decreases |log|
  {
    var before, last := log[..|log| - 1], log[|log| - 1];
    assert forall x :: x in before ==> x in log;
    if e == last {
      assert EntryOk(before, e);
    } else {
      assert log == before + [last];
      SourcesPrecede(before, e);
    }
  }

  lemma AddIssued(w: Server, claims: Claims, token: Token, source: Source, r: Server)
    requires Invariant(w) && MayIssue(w, token, claims, source)
    requires r.codes == w.codes && r.auth.clock == w.auth.clock
    requires r.auth.live == w.auth.live[token := claims] && r.auth.retired == w.auth.retired
    requires r.auth.log == w.auth.log + [Issued(token, claims, source)]
    ensures Invariant(r)
  {
    var e := Issued(token, claims, source);
    AppendOk(w.auth.log, e);
    TablesAfterIssue(w.auth, e, r.auth);
    CodesAfterIssue(w, e, r);
    SpentAfterIssue(w, e, r);
    OneLiveAfterIssue(w, e, r);
  }

  lemma TablesAfterIssue(w: Authority, e: Entry, r: Authority)
    requires LiveKnown(w) && RetiredKnown(w) && AgreesWithLog(w)
    requires e.Issued? && EntryOk(w.log, e)
    requires r.log == w.log + [e] && r.live == w.live[e.token := e.claims] && r.retired == w.retired
    ensures LiveKnown(r) && RetiredKnown(r) && AgreesWithLog(r)
  {
    assert e in r.log;
    assert e.token !in w.live by {
      assert e.token in w.live ==> IssuedAs(w.log, e.token, w.live[e.token]);
    }
    forall t | t in r.live
      ensures IssuedAs(r.log, t, r.live[t]) && Revoked(r.live[t].family) !in r.log
    {
      if t != e.token {
        assert IssuedAs(w.log, t, w.live[t]);
        var i :| i in w.log && i.Issued? && i.token == t && i.claims == w.live[t];
        assert i in r.log;
      }
    }
    forall t | t in r.retired
      ensures exists i :: i in r.log && i.Issued? && i.token == t
    {
      var i :| i in w.log && i.Issued? && i.token == t;
      assert i in r.log;
    }
  }

  lemma CodesAfterIssue(w: Server, e: Entry, r: Server)
    requires CodesKnown(w) && e.Issued? && (e.source.FromCode? ==> e.source.code !in w.codes)
    requires r.auth.log == w.auth.log + [e] && r.codes == w.codes
    ensures CodesKnown(r)
  {
    forall c | c in r.codes
      ensures exists x :: x in r.auth.log && x.Granted? && x.code == c && x.grant == r.codes[c]
    {
      var x :| x in w.auth.log && x.Granted? && x.code == c && x.grant == w.codes[c];
      assert x in r.auth.log;
    }
  }

  lemma SpentAfterIssue(w: Server, e: Entry, r: Server)
    requires e.Issued? && Invariant(w) && MayIssue(w, e.token, e.claims, e.source)
    requires r.auth.clock == w.auth.clock && r.auth.log == w.auth.log + [e]
    requires r.auth.live == w.auth.live[e.token := e.claims] && r.auth.retired == w.auth.retired
    ensures SpentRemembered(r.auth)
  {
    forall x, p | x in r.auth.log && p in r.auth.log && x.Issued? && p.Issued? && x.source == FromRefresh(p.token)
      ensures p.token !in r.auth.live
      ensures p.token in r.auth.retired || Revoked(p.claims.family) in r.auth.log || p.claims.expiresAt <= r.auth.clock
    {
      if x != e {
        SourcesPrecede(w.auth.log, x);
      }
    }
  }

  lemma OneLiveAfterIssue(w: Server, e: Entry, r: Server)
    requires e.Issued? && Invariant(w) && MayIssue(w, e.token, e.claims, e.source)
    requires r.auth.log == w.auth.log + [e] && r.auth.live == w.auth.live[e.token := e.claims]
    ensures OneLivePerCode(r.auth)
  {
    forall t, u | t in LiveRefresh(r.auth) && u in LiveRefresh(r.auth)
      && Origin(r.auth.log, t).Some? && Origin(r.auth.log, t) == Origin(r.auth.log, u)
      ensures t == u
    {
      OriginAppend(w.auth.log, e, t);
      OriginAppend(w.auth.log, e, u);
      assert t != e.token ==> t in LiveRefresh(w.auth);
      assert u != e.token ==> u in LiveRefresh(w.auth);
    }
  }

  lemma CodesAfterGrant(s: Server, e: Entry, r: Server, c: Token)
    requires LogOk(s.auth.log) && CodesKnown(s) && r.auth.log == s.auth.log + [e]
    requires EntryOk(s.auth.log, e) && e.Granted? && e.code == c
    requires c in r.codes && r.codes[c] == e.grant
    requires forall x :: x in r.codes && x != c ==> x in s.codes && r.codes[x] == s.codes[x]
    ensures CodesKnown(r)
  {
    assert e in r.auth.log;
    forall x | x in r.auth.log && x.Issued?
      ensures x.source != FromCode(c)
    {
      SourcesPrecede(s.auth.log, x);
    }
    forall k | k in r.codes && k != c
      ensures exists x :: x in r.auth.log && x.Granted? && x.code == k && x.grant == r.codes[k]
    {
      var x :| x in s.auth.log && x.Granted? && x.code == k && x.grant == s.codes[k];
      assert x in r.auth.log;
    }
  }

  lemma GrantKeeps(s: Server, client: Client, grant: Code, session: Family, now: int, nonces: Nonces)
    requires Invariant(s)
    requires EntryOk(s.auth.log, Granted(nonces.first, grant, client.scopes, session, client.kind == Module))
    ensures Invariant(IssueCode(s, client, grant, session, now, nonces))
  {
    var r := IssueCode(s, client, grant, session, now, nonces);
    var e := Granted(nonces.first, grant, client.scopes, session, client.kind == Module);
    CodesAfterGrant(s, e, r, nonces.first);
    QuietKeeps(s, r, e);
  }

  // ----- what the requests keep -----

  /** The random values of a step have not occurred before. */
  ghost predicate NoncesNew(log: Log, n: Nonces) {
    && n.first != n.second && n.family != n.session
    && forall e :: e in log ==>
      match e
      case Issued(token, claims, _) => token != n.first && token != n.second && claims.family != n.family && claims.family != n.session
      case Granted(code, grant, _, session, _) =>
        code != n.first && grant.family != n.family && grant.family != n.session && session != n.family && session != n.session
      case Revoked(family) => family != n.family && family != n.session
  }

  lemma ForgetKeeps(s: Server, token: Token, now: int)
    requires Invariant(s)
    ensures Invariant(s.(auth := AfterVerify(s.auth, token, now)))
  {
    ShrinkKeeps(s, s.(auth := AfterVerify(s.auth, token, now)));
  }

  lemma LookupKeeps(s: Server, token: Option<Token>, now: int)
    requires Invariant(s)
    ensures Invariant(AfterLookup(s, token, now))
  {
    if token.Some? {
      ForgetKeeps(s, token.value, now);
    }
  }

  lemma ConsumeKeeps(s: Server, token: Token, now: int)
    requires Invariant(s)
    ensures Invariant(ConsumeToken(s, token, now))
  {
    match ConsumeOutcome(s.auth, token, now) {
      case Consumed(claims) =>
        RetireKeeps(s, token);
        assert ConsumeToken(s, token, now) == Retire(s, token);
      case NotConsumed(Some(family)) =>
        ForgetKeeps(s, token, now);
        RevokeKeeps(s.(auth := AfterVerify(s.auth, token, now)), family);
      case NotConsumed(None) =>
        ForgetKeeps(s, token, now);
    }
  }

  /** A live session's family may be joined: it was signed in to and never revoked. */
  lemma SessionStands(s: Server, cookie: Option<Token>, now: int)
    requires Invariant(s) && SessionOf(s, cookie, now).Some?
    ensures var family := SessionOf(s, cookie, now).value.family;
      && Revoked(family) !in s.auth.log
      && exists e :: e in s.auth.log && e.Issued? && e.claims.kind == Session && e.claims.family == family
  {
    assert IssuedAs(s.auth.log, cookie.value, s.auth.live[cookie.value]);
  }

  lemma CodeKeeps(s: Server, client: Client, redirectUri: string, challenge: string, scopes: seq<Scope>,
      session: Family, now: int, n: Nonces)
    requires Invariant(s) && Within(scopes, client.scopes)
    requires forall e :: e in s.auth.log && e.Granted? ==> e.code != n.first
    requires forall e :: e in s.auth.log && e.Issued? ==> e.claims.family != n.family
    requires Revoked(n.family) !in s.auth.log && Revoked(session) !in s.auth.log
    requires exists e :: e in s.auth.log && e.Issued? && e.claims.kind == Session && e.claims.family == session
    ensures Invariant(IssueCode(s, client, GrantFor(client, redirectUri, challenge, scopes, session, now, n), session, now, n))
  {
    GrantKeeps(s, client, GrantFor(client, redirectUri, challenge, scopes, session, now, n), session, now, n);
  }

  lemma SignInKeeps(o: Options, s: Server, now: int, n: Nonces)
    requires Invariant(s) && NoncesNew(s.auth.log, n)
    ensures var r := SignIn(o, s, now, n);
      && Invariant(r)
      && r.auth.log == s.auth.log + [Issued(n.second, SignInClaims(o, now, n), FromSignIn)]
  {
    IssueKeeps(s, SignInClaims(o, now, n), now, n.second, FromSignIn);
  }

  lemma AuthorizeInSession(s: Server, s1: Server, client: Client, r: AuthorizeRequest, scopes: seq<Scope>,
      now: int, n: Nonces)
    requires Invariant(s) && Invariant(s1) && s1.auth.log == s.auth.log && NoncesNew(s.auth.log, n)
    requires r.redirectUri.Some? && r.challenge.Some? && Within(scopes, client.scopes)
    requires SessionOf(s, r.cookie, now).Some?
    ensures var session := SessionOf(s, r.cookie, now).value.family;
      Invariant(IssueCode(s1, client, GrantFor(client, r.redirectUri.value, r.challenge.value, scopes, session, now, n), session, now, n))
  {
    SessionStands(s, r.cookie, now);
    CodeKeeps(s1, client, r.redirectUri.value, r.challenge.value, scopes, SessionOf(s, r.cookie, now).value.family, now, n);
  }

  lemma AuthorizeBySignIn(o: Options, s1: Server, client: Client, r: AuthorizeRequest, scopes: seq<Scope>,
      now: int, n: Nonces)
    requires Invariant(s1) && NoncesNew(s1.auth.log, n)
    requires r.redirectUri.Some? && r.challenge.Some? && Within(scopes, client.scopes)
    ensures var s2 := SignIn(o, s1, now, n);
      Invariant(IssueCode(s2, client, GrantFor(client, r.redirectUri.value, r.challenge.value, scopes, n.session, now, n), n.session, now, n))
  {
    SignInKeeps(o, s1, now, n);
    var s2, e := SignIn(o, s1, now, n), Issued(n.second, SignInClaims(o, now, n), FromSignIn);
    assert e in s2.auth.log && e.claims.kind == Session;
    CodeKeeps(s2, client, r.redirectUri.value, r.challenge.value, scopes, n.session, now, n);
  }

  /** The state after a code was issued: in the sign-in the request carries, or in the one it establishes. */
  ghost function CodeIssued(o: Options, s: Server, client: Client, r: AuthorizeRequest, scopes: seq<Scope>,
      now: int, n: Nonces): Server
    requires r.redirectUri.Some? && r.challenge.Some?
  {
    var s1 := AfterLookup(s, r.cookie, now);
    match SessionOf(s, r.cookie, now)
    case Some(session) =>
      IssueCode(s1, client, GrantFor(client, r.redirectUri.value, r.challenge.value, scopes, session.family, now, n), session.family, now, n)
    case None =>
      IssueCode(SignIn(o, s1, now, n), client, GrantFor(client, r.redirectUri.value, r.challenge.value, scopes, n.session, now, n), n.session, now, n)
  }

  /** An authorization request either issues a code within the client's scopes or leaves codes and history alone. */
  lemma AuthorizeOutcome(o: Options, s: Server, r: AuthorizeRequest, now: int, n: Nonces)
    ensures var (s', reply) := Authorize(o, s, r, now, n);
      if reply.CodeSent? then
        && LookupClient(o, s, r.clientId).Found? && r.redirectUri.Some? && r.challenge.Some?
        && GrantedScopes(r.scope, LookupClient(o, s, r.clientId).client.scopes).Some?
        && s' == CodeIssued(o, s, LookupClient(o, s, r.clientId).client, r,
                            GrantedScopes(r.scope, LookupClient(o, s, r.clientId).client.scopes).value, now, n)
      else s' == s || s' == AfterLookup(s, r.cookie, now)
  {
  }

  lemma CodeIssuedKeeps(o: Options, s: Server, client: Client, r: AuthorizeRequest, scopes: seq<Scope>, now: int,
      n: Nonces)
    requires Invariant(s) && NoncesNew(s.auth.log, n)
    requires r.redirectUri.Some? && r.challenge.Some? && Within(scopes, client.scopes)
    ensures Invariant(CodeIssued(o, s, client, r, scopes, now, n))
  {
    var s1 := AfterLookup(s, r.cookie, now);
    LookupKeeps(s, r.cookie, now);
    if SessionOf(s, r.cookie, now).Some? {
      AuthorizeInSession(s, s1, client, r, scopes, now, n);
    } else {
      AuthorizeBySignIn(o, s1, client, r, scopes, now, n);
    }
  }

  lemma AuthorizeKeeps(o: Options, s: Server, r: AuthorizeRequest, now: int, n: Nonces)
    requires Invariant(s) && NoncesNew(s.auth.log, n)
    ensures Invariant(Authorize(o, s, r, now, n).0)
  {
    AuthorizeOutcome(o, s, r, now, n);
    LookupKeeps(s, r.cookie, now);
    if Authorize(o, s, r, now, n).1.CodeSent? {
      var client := LookupClient(o, s, r.clientId).client;
      CodeIssuedKeeps(o, s, client, r, GrantedScopes(r.scope, client.scopes).value, now, n);
    }
  }

  /** What the token endpoint may issue now: for a code or a refresh token just spent, or to a client itself. */
  ghost predicate Ready(s: Server, d: Decision) {
    && d.Accept? && Revoked(d.family) !in s.auth.log
    && (d.refresh <==> !d.source.FromClient?)
    && !d.source.FromSignIn?
    && (d.source.FromClient? ==> Within(d.scopes, d.source.allowed))
    && (d.refresh ==>
      && (forall kind, expiresAt :: kind != Session ==> Justified(s.auth.log, ClaimsFor(kind, d, expiresAt), d.source))
      && (forall e :: e in s.auth.log && e.Issued? ==> e.source != d.source)
      && (d.source.FromCode? ==> d.source.code !in s.codes)
      && (d.source.FromRefresh? ==> d.source.presented in s.auth.retired)
      && Vacant(s.auth, SourceOrigin(s.auth.log, d.source)))
  }

  lemma IssueTokensKeeps(o: Options, s: Server, d: Decision, now: int, n: Nonces)
    requires Invariant(s) && NoncesNew(s.auth.log, n) && Ready(s, d)
    ensures Invariant(IssueTokens(o, s, d, now, n))
  {
    var access, refresh := ClaimsFor(Access, d, now + o.accessTtlMs), ClaimsFor(Refresh, d, now + o.refreshTtlMs);
    var s1 := WithIssued(s, access, now, n.first, d.source);
    FirstIssue(s, d, access, n);
    IssueKeeps(s, access, now, n.first, d.source);
    IssueTokensUnfold(o, s, d, now, n);
    if d.refresh {
      SecondIssue(s, s1, d, access, refresh, now, n);
      IssueKeeps(s1, refresh, now, n.second, d.source);
    }
  }

  lemma IssueTokensUnfold(o: Options, s: Server, d: Decision, now: int, n: Nonces)
    requires d.Accept?
    ensures var s1 := WithIssued(s, ClaimsFor(Access, d, now + o.accessTtlMs), now, n.first, d.source);
      IssueTokens(o, s, d, now, n)
        == if d.refresh then WithIssued(s1, ClaimsFor(Refresh, d, now + o.refreshTtlMs), now, n.second, d.source) else s1
  {
  }

  lemma FirstIssue(s: Server, d: Decision, access: Claims, n: Nonces)
    requires NoncesNew(s.auth.log, n) && Ready(s, d) && access == ClaimsFor(Access, d, access.expiresAt)
    ensures MayIssue(s, n.first, access, d.source)
  {
    if d.refresh {
      assert Justified(s.auth.log, ClaimsFor(Access, d, access.expiresAt), d.source);
    }
  }

  lemma SecondIssue(s: Server, s1: Server, d: Decision, access: Claims, refresh: Claims, now: int, n: Nonces)
    requires Invariant(s) && Invariant(s1) && NoncesNew(s.auth.log, n) && Ready(s, d) && d.refresh
    requires access.kind == Access && access.family == d.family
    requires refresh == ClaimsFor(Refresh, d, refresh.expiresAt)
    requires s1 == WithIssued(s, access, now, n.first, d.source)
    ensures MayIssue(s1, n.second, refresh, d.source)
  {
    var log, e := s.auth.log, Issued(n.first, access, d.source);
    assert s1.auth.log == log + [e];
    assert Justified(log, refresh, d.source);
    JustifiedLater(log, e, refresh, d.source);
    SecondEntryOk(log, e, refresh, n);
    if d.source.FromRefresh? {
      StillRetired(s, s1, access, d.source, now, n.first, d.source.presented);
    }
    SameSourceOrigin(log, e, refresh, d.source);
    forall u | u in LiveRefresh(s1.auth)
      ensures u in LiveRefresh(s.auth) && Origin(s1.auth.log, u) == Origin(log, u)
    {
      OriginAppend(log, e, u);
    }
  }

  lemma SecondEntryOk(log: Log, e: Entry, refresh: Claims, n: Nonces)
    requires NoncesNew(log, n) && e.Issued? && e.token == n.first
    requires Revoked(refresh.family) !in log && Justified(log + [e], refresh, e.source)
    ensures EntryOk(log + [e], Issued(n.second, refresh, e.source))
  {
  }

  lemma StillRetired(s: Server, s1: Server, access: Claims, source: Source, now: int, first: Token, token: Token)
    requires Invariant(s) && token in s.auth.retired && access.kind == Access
    requires EntryOk(s.auth.log, Issued(first, access, source))
    requires s1 == WithIssued(s, access, now, first, source)
    ensures token in s1.auth.retired || RetiredGone(s1.auth, token)
  {
    assert RetiredGoneOrKept(s, s1, token, now);
  }

  lemma SameSourceOrigin(log: Log, e: Entry, refresh: Claims, source: Source)
    requires LogOk(log) && EntryOk(log, e) && Justified(log, refresh, source)
    ensures SourceOrigin(log + [e], source) == SourceOrigin(log, source)
  {
    if source.FromRefresh? {
      var p :| p in log && Refreshes(p, source.presented, refresh);
      OriginAppend(log, e, source.presented);
    }
  }

  /** After one issue a retired token is still remembered, or its time had passed. */
  ghost predicate RetiredGoneOrKept(s: Server, s1: Server, token: Token, now: int) {
    token in s1.auth.retired || (token in s.auth.retired && s.auth.retired[token].expiresAt <= s1.auth.clock)
  }

  lemma JustifiedLater(log: Log, e: Entry, claims: Claims, source: Source)
    requires Justified(log, claims, source) && e.Issued? && e.source == source && e.claims.kind != claims.kind
    ensures Justified(log + [e], claims, source)
  {
    assert forall x :: x in log ==> x in log + [e];
    match source {
      case FromCode(code) =>
        var g :| g in log && g.Granted? && g.code == code && Redeems(claims, g.grant);
        assert g in log + [e];
      case FromRefresh(presented) =>
        var p :| p in log && Refreshes(p, presented, claims);
        assert p in log + [e];
      case _ =>
    }
  }

  lemma RedeemCodeKeeps(s: Server, client: Client, g: Grant, now: int)
    requires Invariant(s) && g.AuthorizationCode?
    ensures var (r, d) := RedeemCode(s, client, g, now);
      Invariant(r) && (d.Accept? ==> Ready(r, d) && r.auth.log == s.auth.log)
  {
    var s1 := s.(codes := s.codes - {g.code});
    ShrinkKeeps(s, s1);
    var (r, d) := RedeemCode(s, client, g, now);
    if d.Accept? {
      var code := s.codes[g.code];
      var e :| e in s.auth.log && e.Granted? && e.code == g.code && e.grant == code;
      assert Redeems(ClaimsFor(Access, d, 0), e.grant);
      forall u | u in LiveRefresh(s1.auth)
        ensures Origin(s1.auth.log, u) != Some(g.code)
      {
        if Origin(s.auth.log, u) == Some(g.code) {
          OriginWasRedeemed(s.auth.log, u);
        }
      }
    } else if g.code in s.codes {
      RevokeKeeps(s1, s.codes[g.code].family);
    }
  }

  lemma RefreshReady(s: Server, client: Client, presented: Token, scope: Option<seq<Scope>>, now: int)
    requires Invariant(s) && RedeemRefresh(s, client, presented, scope, now).1.Accept?
    ensures var (r, d) := RedeemRefresh(s, client, presented, scope, now);
      Ready(r, d) && r == Retire(s, presented) && r.auth.log == s.auth.log
  {
    var (r, d) := RedeemRefresh(s, client, presented, scope, now);
    var claims := s.auth.live[presented];
    assert IssuedAs(s.auth.log, presented, claims);
    var p :| p in s.auth.log && p.Issued? && p.token == presented && p.claims == claims;
    forall kind, expiresAt
      ensures Refreshes(p, presented, ClaimsFor(kind, d, expiresAt))
    {
    }
    assert presented in LiveRefresh(s.auth);
    assert LiveRefresh(r.auth) == LiveRefresh(s.auth) - {presented};
  }

  lemma RedeemRefreshKeeps(s: Server, client: Client, presented: Token, scope: Option<seq<Scope>>, now: int)
    requires Invariant(s)
    ensures var (r, d) := RedeemRefresh(s, client, presented, scope, now);
      Invariant(r) && (d.Accept? ==> Ready(r, d) && r.auth.log == s.auth.log)
  {
    var r, d := RedeemRefresh(s, client, presented, scope, now).0, RedeemRefresh(s, client, presented, scope, now).1;
    RefreshBecomes(s, client, presented, scope, now);
    assert Invariant(r) by {
      if r == ConsumeToken(s, presented, now) {
        ConsumeKeeps(s, presented, now);
      } else if r != s {
        RevokeKeeps(s, s.auth.live[presented].family);
      }
    }
    if d.Accept? {
      RefreshReady(s, client, presented, scope, now);
    }
  }

  /** A refresh leaves the server alone, consumes the token or revokes its family. */
  lemma RefreshBecomes(s: Server, client: Client, presented: Token, scope: Option<seq<Scope>>, now: int)
    ensures var r := RedeemRefresh(s, client, presented, scope, now).0;
      r == s || r == ConsumeToken(s, presented, now)
      || (presented in s.auth.live && r == RevokeGrants(s, s.auth.live[presented].family))
  {
  }

  lemma ExchangeKeeps(o: Options, s: Server, r: TokenRequest, now: int, n: Nonces)
    requires Invariant(s) && NoncesNew(s.auth.log, n)
    ensures Invariant(Exchange(o, s, r, now, n).0)
  {
    match AuthenticateClient(o, s, r.clientId, r.secret) {
      case Found(client) =>
        var (s1, d) := Decide(s, client, r, now, n);
        match r.grant {
          case AuthorizationCode(_, _, _) => RedeemCodeKeeps(s, client, r.grant, now);
          case RefreshToken(presented) => RedeemRefreshKeeps(s, client, presented, r.scope, now);
          case _ =>
        }
        assert Invariant(s1);
        if d.Accept? {
          assert s1.auth.log == s.auth.log && Ready(s1, d);
          IssueTokensKeeps(o, s1, d, now, n);
        }
      case _ =>
    }
  }
}
