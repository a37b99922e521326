/** Every credential's scopes lie within those its client is registered with, in the client table as it stands. */
module OAuthScopes {
  import opened CredentialAuthority
  import opened OAuthServer
  import opened OAuthRuns
  import opened OAuthSafety
  import opened Optional
  import opened Sequences

  /** Both client tables hold each client under its own id. */
  predicate Keyed(o: Options, s: Server) {
    && (forall id :: id in o.modules ==> o.modules[id].id == id)
    && (forall id :: id in s.clients ==> s.clients[id].id == id)
  }

  /** The client is known, with exactly these scopes. */
  predicate Registers(o: Options, s: Server, id: ClientId, scopes: seq<Scope>) {
    LookupClient(o, s, id).Found? && LookupClient(o, s, id).client.scopes == scopes
  }

  /** What the entry says its client may have is what the client is registered with. */
  predicate Known(o: Options, s: Server, e: Entry) {
    match e
    case Granted(_, grant, allowed, _, _) => Registers(o, s, grant.clientId, allowed)
    case Issued(_, claims, FromClient(allowed)) => Registers(o, s, claims.clientId, allowed)
    case _ => true
  }

  ghost predicate AllKnown(o: Options, s: Server) {
    Keyed(o, s) && forall e :: e in s.auth.log ==> Known(o, s, e)
  }

  // ----- what a step adds to the history -----

  /** `after` is `before` with entries that say no more than the client tables. */
  ghost predicate Adds(o: Options, s: Server, before: Log, after: Log) {
    forall x :: x in after ==> x in before || Known(o, s, x)
  }

  lemma ConsumptionAdds(o: Options, s: Server, t: Server, token: Token, now: int)
    ensures Adds(o, s, t.auth.log, ConsumeToken(t, token, now).auth.log)
  {
  }

  lemma AuthorizationAdds(o: Options, s: Server, r: AuthorizeRequest, now: int, n: Nonces)
    requires Keyed(o, s)
    ensures Adds(o, s, s.auth.log, Authorize(o, s, r, now, n).0.auth.log)
  {
    var client := LookupClient(o, s, r.clientId);
    assert client.Found? ==> Registers(o, s, client.client.id, client.client.scopes);
  }

  lemma DecisionAdds(o: Options, s: Server, client: Client, r: TokenRequest, now: int, n: Nonces)
    requires Registers(o, s, client.id, client.scopes)
    ensures var (s1, d) := Decide(s, client, r, now, n);
      && Adds(o, s, s.auth.log, s1.auth.log)
      && (d.Accept? && d.source.FromClient? ==> Registers(o, s, d.clientId, d.source.allowed))
  {
    match r.grant {
      case RefreshToken(presented) => ConsumptionAdds(o, s, s, presented, now);
      case _ =>
    }
  }

  lemma IssueAdds(o: Options, s: Server, s1: Server, d: Decision, now: int, n: Nonces)
    requires d.Accept? && (d.source.FromClient? ==> Registers(o, s, d.clientId, d.source.allowed))
    ensures Adds(o, s, s1.auth.log, IssueTokens(o, s1, d, now, n).auth.log)
  {
  }

  lemma ExchangeAdds(o: Options, s: Server, r: TokenRequest, now: int, n: Nonces)
    requires Keyed(o, s)
    ensures Adds(o, s, s.auth.log, Exchange(o, s, r, now, n).0.auth.log)
  {
    match AuthenticateClient(o, s, r.clientId, r.secret) {
      case Found(client) =>
        assert LookupClient(o, s, r.clientId.value) == Found(client) && client.id == r.clientId.value;
        DecisionAdds(o, s, client, r, now, n);
        var (s1, d) := Decide(s, client, r, now, n);
        if d.Accept? {
          IssueAdds(o, s, s1, d, now, n);
        }
      case _ =>
    }
  }

  lemma StepAdds(o: Options, s: Server, e: Event)
    requires Keyed(o, s)
    ensures Adds(o, s, s.auth.log, Step(o, s, e).auth.log)
  {
    match e {
      case Authorization(r, now, n) => AuthorizationAdds(o, s, r, now, n);
      case TokenCall(r, now, n) => ExchangeAdds(o, s, r, now, n);
      case _ =>
    }
  }

  // ----- the client tables -----

  lemma ExchangeKeepsClients(o: Options, s: Server, r: TokenRequest, now: int, n: Nonces)
    ensures Exchange(o, s, r, now, n).0.clients == s.clients
  {
  }

  /** A step keeps every client as it is and adds at most one. */
  lemma ClientsStay(o: Options, s: Server, e: Event, id: ClientId)
    requires Keyed(o, s) && Possible(o, s, e)
    ensures Keyed(o, Step(o, s, e))
    ensures LookupClient(o, s, id).Found? ==> LookupClient(o, Step(o, s, e), id) == LookupClient(o, s, id)
  {
    match e {
      case TokenCall(r, now, n) => ExchangeKeepsClients(o, s, r, now, n);
      case _ =>
    }
  }

  lemma KnownStays(o: Options, s: Server, e: Event)
    requires AllKnown(o, s) && Possible(o, s, e)
    ensures AllKnown(o, Step(o, s, e))
  {
    StepAdds(o, s, e);
    ClientsStay(o, s, e, "");
    forall x | x in Step(o, s, e).auth.log ensures Known(o, Step(o, s, e), x) {
      match x {
        case Granted(_, grant, _, _, _) => ClientsStay(o, s, e, grant.clientId);
        case Issued(_, claims, _) => ClientsStay(o, s, e, claims.clientId);
        case _ =>
      }
    }
  }

  lemma {:induction false} ReachedIsKnown(o: Options, start: Server, events: seq<Event>, s: Server)
    requires Reached(o, start, events, s) && Keyed(o, start)
    ensures AllKnown(o, s)
    decreases |events|
  {
    if events != [] {
      var last := |events| - 1;
      ReachedIsKnown(o, start, events[..last], Run(o, start, events[..last]));
      KnownStays(o, Run(o, start, events[..last]), events[last]);
    }
  }

  // ----- every credential -----

  ghost predicate WithinRegistration(o: Options, s: Server, claims: Claims) {
    LookupClient(o, s, claims.clientId).Found? && Within(claims.scopes, LookupClient(o, s, claims.clientId).client.scopes)
  }

  lemma {:induction false} IssuedWithin(o: Options, s: Server, log: Log, e: Entry)
    requires LogOk(log) && (forall x :: x in log ==> Known(o, s, x))
    requires e in log && e.Issued? && e.claims.kind != Session
    ensures WithinRegistration(o, s, e.claims)
    decreases |log|
  {
    var before, last := log[..|log| - 1], log[|log| - 1];
    assert log == before + [last] && forall x :: x in before ==> x in log;
    if e in before {
      IssuedWithin(o, s, before, e);
    } else {
      assert EntryOk(before, e) && Known(o, s, e);
      match e.source {
        case FromCode(code) =>
          var g :| g in before && g.Granted? && g.code == code && Redeems(e.claims, g.grant);
          GrantWasWithin(before, g);
          assert Known(o, s, g);
        case FromRefresh(presented) =>
          var p :| p in before && Refreshes(p, presented, e.claims);
          IssuedWithin(o, s, before, p);
          WithinTransitive(e.claims.scopes, p.claims.scopes, LookupClient(o, s, e.claims.clientId).client.scopes);
        case _ =>
      }
    }
  }

  /** In every run, every access and refresh token ever issued belongs to a client that is in the tables, with scopes
      within those it is registered with. */
  lemma EveryTokenWithinRegistration(o: Options, start: Server, events: seq<Event>, s: Server, e: Entry)
    requires Reached(o, start, events, s) && Keyed(o, start)
    requires e in s.auth.log && e.Issued? && e.claims.kind != Session
    ensures LookupClient(o, s, e.claims.clientId).Found?
    ensures Within(e.claims.scopes, LookupClient(o, s, e.claims.clientId).client.scopes)
  {
    ReachedIsSound(o, start, events, s);
    ReachedIsKnown(o, start, events, s);
    IssuedWithin(o, s, s.auth.log, e);
  }
}
