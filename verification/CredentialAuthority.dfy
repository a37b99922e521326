/** The daemon's credential authority: opaque tokens, live until they expire, are consumed or their family
    is revoked. The specification functions below act on values; the class does the same in place. */
module CredentialAuthority {

  import opened Optional

  type Token = string
  type Family = string
  type ClientId = string
  type Scope = string

  datatype Kind = Access | Refresh | Session

  datatype Claims = Claims(kind: Kind, subject: string, clientId: ClientId, scopes: seq<Scope>, family: Family, expiresAt: int)

  datatype Retired = Retired(family: Family, expiresAt: int)

  /** A pending authorization code. */
  datatype Code = Code(clientId: ClientId, redirectUri: string, challenge: string, scopes: seq<Scope>, family: Family, expiresAt: int)

  /** What a credential was issued for. */
  datatype Source = FromSignIn | FromCode(code: Token) | FromRefresh(presented: Token) | FromClient(allowed: seq<Scope>)

  /** The history of a run: codes granted, credentials issued, families revoked, in order. A granted code
      records the scopes its client was registered with and the sign-in it was authorized by. */
  datatype Entry =
    | Granted(code: Token, grant: Code, allowed: seq<Scope>, session: Family, joins: bool)
    | Issued(token: Token, claims: Claims, source: Source)
    | Revoked(family: Family)

  /** The authority's state, with the history and the latest clock reading seen so far. */
  datatype Authority = Authority(
    live: map<Token, Claims>,
    retired: map<Token, Retired>,
    established: map<Family, int>,
    log: seq<Entry>,
    clock: int)

  datatype Consumption = Consumed(claims: Claims) | NotConsumed(reusedFamily: Option<Family>)

  function LaterOf(x: int, y: int): int {
    if x >= y then x else y
  }

  function Record(a: Authority, e: Entry): Authority {
    a.(log := a.log + [e])
  }

  /** Drops what has expired, and the standing of families that hold nothing any more. */
  function Sweep(a: Authority, now: int): Authority {
    var live := map t | t in a.live && a.live[t].expiresAt > now :: a.live[t];
    var retired := map t | t in a.retired && a.retired[t].expiresAt > now :: a.retired[t];
    var held := set t | t in live :: live[t].family;
    var established := map f | f in a.established && f in held :: a.established[f];
    Authority(live, retired, established, a.log, LaterOf(a.clock, now))
  }

  /** Issues a credential under a fresh token; `claims.expiresAt` is already `now` plus its lifetime. */
  function Issue(a: Authority, claims: Claims, now: int, token: Token, source: Source): Authority {
    var s := Sweep(a, now);
    var established := if claims.family in s.established then s.established else s.established[claims.family := now];
    Record(s.(live := s.live[token := claims], established := established), Issued(token, claims, source))
  }

  function Verified(a: Authority, token: Token, now: int): Option<Claims> {
    if token in a.live && a.live[token].expiresAt > now then Some(a.live[token]) else None
  }

  /** Looking a token up forgets it once it has expired. */
  function AfterVerify(a: Authority, token: Token, now: int): Authority {
    if token in a.live && a.live[token].expiresAt <= now then a.(live := a.live - {token}) else a
  }

  function RevokeFamily(a: Authority, family: Family): Authority {
    Record(a.(
      live := map t | t in a.live && a.live[t].family != family :: a.live[t],
      retired := map t | t in a.retired && a.retired[t].family != family :: a.retired[t],
      established := a.established - {family}), Revoked(family))
  }

  function ConsumeOutcome(a: Authority, token: Token, now: int): Consumption {
    match Verified(a, token, now)
    case Some(claims) => if claims.kind == Refresh then Consumed(claims) else NotConsumed(None)
    case None =>
      if token in a.retired && a.retired[token].expiresAt > now then NotConsumed(Some(a.retired[token].family))
      else NotConsumed(None)
  }

  /** Consuming retires a live refresh token; a token already retired ends its whole family. */
  function AfterConsume(a: Authority, token: Token, now: int): Authority {
    match ConsumeOutcome(a, token, now)
    case Consumed(claims) =>
      a.(live := a.live - {token}, retired := a.retired[token := Retired(claims.family, claims.expiresAt)])
    case NotConsumed(Some(family)) => RevokeFamily(AfterVerify(a, token, now), family)
    case NotConsumed(None) => AfterVerify(a, token, now)
  }

  /** Every family with a live credential has a standing, so a session list always knows when it began. */
  ghost predicate StandingsKnown(a: Authority) {
    forall t :: t in a.live ==> a.live[t].family in a.established
  }

  lemma StandingsKept(a: Authority, claims: Claims, now: int, token: Token, source: Source, family: Family)
    requires StandingsKnown(a)
    ensures StandingsKnown(Sweep(a, now))
    ensures StandingsKnown(Issue(a, claims, now, token, source))
    ensures StandingsKnown(RevokeFamily(a, family))
    ensures StandingsKnown(AfterVerify(a, token, now))
    ensures StandingsKnown(AfterConsume(a, token, now))
  {
    var s := Sweep(a, now);
    forall t | t in s.live
      ensures s.live[t].family in s.established
    {
      assert t in a.live;
    }
  }

  /** A sweep forgets what is out of time and standings nothing holds, and from then on no answer tells that it happened. */
  lemma SweepIsUnseen(a: Authority, now: int, later: int, token: Token)
    requires now <= later
    ensures var r := Sweep(a, now);
      && (token in r.live <==> Verified(a, token, now).Some?)
      && (token in r.retired <==> token in a.retired && now < a.retired[token].expiresAt)
      && (forall f :: f in r.established <==> f in a.established && exists t :: t in r.live && r.live[t].family == f)
      && (forall f :: f in r.established ==> r.established[f] == a.established[f])
      && Verified(r, token, later) == Verified(a, token, later)
      && ConsumeOutcome(r, token, later) == ConsumeOutcome(a, token, later)
  {
  }

  /** Revoking a family leaves nothing of it and everything of every other. */
  lemma RevocationIsExact(a: Authority, family: Family)
    ensures var r := RevokeFamily(a, family);
      && (forall t :: t in r.live <==> t in a.live && a.live[t].family != family)
      && (forall t :: t in r.live ==> r.live[t] == a.live[t])
      && (forall t :: t in r.retired <==> t in a.retired && a.retired[t].family != family)
      && (forall t :: t in r.retired ==> r.retired[t] == a.retired[t])
      && family !in r.established && (forall f :: f in a.established && f != family ==> f in r.established && r.established[f] == a.established[f])
      && RevokeFamily(r, family) == Record(r, Revoked(family))
  {
    var r := RevokeFamily(a, family);
    var again := RevokeFamily(r, family);
    assert again.live == r.live && again.retired == r.retired && again.established == r.established;
  }

  /** The two claims a consumption makes: exactly one exchange per refresh token, and a second
      presentation before the token would have expired ends the family. */
  lemma SecondConsumptionRevokes(a: Authority, token: Token, now: int, later: int)
    requires ConsumeOutcome(a, token, now).Consumed?
    ensures var claims := ConsumeOutcome(a, token, now).claims;
      var b := AfterConsume(a, token, now);
      && token !in b.live
      && ConsumeOutcome(b, token, later) == NotConsumed(if later < claims.expiresAt then Some(claims.family) else None)
      && (later < claims.expiresAt ==>
            var c := AfterConsume(b, token, later);
            (forall t :: t in c.live ==> c.live[t].family != claims.family)
            && (forall t :: t in c.retired ==> c.retired[t].family != claims.family))
  {
  }

  /** A token in time is verified without a trace; any other is live no more, and nothing else is touched. */
  lemma LookupForgets(a: Authority, token: Token, now: int)
    ensures var r := AfterVerify(a, token, now);
      && (if Verified(a, token, now).Some? then r == a else token !in r.live)
      && r.live - {token} == a.live - {token} && r.(live := a.live) == a
  {
    if token !in a.live {
      assert a.live - {token} == a.live;
    }
  }

  /** A family's standing tells when it began: at the issue that found nothing of it live. */
  lemma StandingBegins(a: Authority, claims: Claims, now: int, token: Token, source: Source)
    requires StandingsKnown(a)
    ensures var r := Issue(a, claims, now, token, source);
      var held := exists t :: t in a.live && now < a.live[t].expiresAt && a.live[t].family == claims.family;
      && claims.family in r.established
      && r.established[claims.family] == (if held then a.established[claims.family] else now)
  {
    var s := Sweep(a, now);
    if t :| t in a.live && now < a.live[t].expiresAt && a.live[t].family == claims.family {
      assert t in s.live;
    }
  }

  class Credentials {
    var live: map<Token, Claims>
    var retired: map<Token, Retired>
    var established: map<Family, int>
    ghost var log: seq<Entry>
    ghost var clock: int

    constructor ()
      ensures Model() == Authority(map[], map[], map[], [], clock)
    {
      live, retired, established := map[], map[], map[];
      log := [];
    }

    ghost function Model(): Authority
      reads this
    {
      Authority(live, retired, established, log, clock)
    }

    method ForgetExpiredLive(now: int)
      modifies `live
      ensures live == map t | t in old(live) && old(live)[t].expiresAt > now :: old(live)[t]
    {
      var tokens := live.Keys;
      while tokens != {}
        invariant tokens <= old(live).Keys
        invariant forall t :: t in live <==> t in old(live) && (t in tokens || old(live)[t].expiresAt > now)
        invariant forall t :: t in live ==> live[t] == old(live)[t]
      {
        var t :| t in tokens;
        if live[t].expiresAt <= now {
          live := live - {t};
        }
        tokens := tokens - {t};
      }
    }

    method ForgetExpiredRetired(now: int)
      modifies `retired
      ensures retired == map t | t in old(retired) && old(retired)[t].expiresAt > now :: old(retired)[t]
    {
      var tokens := retired.Keys;
      while tokens != {}
        invariant tokens <= old(retired).Keys
        invariant forall t :: t in retired <==> t in old(retired) && (t in tokens || old(retired)[t].expiresAt > now)
        invariant forall t :: t in retired ==> retired[t] == old(retired)[t]
      {
        var t :| t in tokens;
        if retired[t].expiresAt <= now {
          retired := retired - {t};
        }
        tokens := tokens - {t};
      }
    }

    method ForgetUnheldStandings()
      modifies `established
      ensures var held := set t | t in live :: live[t].family;
        established == map f | f in old(established) && f in held :: old(established)[f]
    {
      var held := set t | t in live :: live[t].family;
      var families := established.Keys;
      while families != {}
        invariant families <= old(established).Keys
        invariant forall f :: f in established <==> f in old(established) && (f in families || f in held)
        invariant forall f :: f in established ==> established[f] == old(established)[f]
      {
        var f :| f in families;
        if f !in held {
          established := established - {f};
        }
        families := families - {f};
      }
    }

    method SweepExpired(now: int)
      modifies this
      ensures Model() == Sweep(old(Model()), now)
    {
      ForgetExpiredLive(now);
      ForgetExpiredRetired(now);
      ForgetUnheldStandings();
      clock := LaterOf(clock, now);
    }

    /** Issues a credential and answers when it expires, or is a TypeError that changes nothing. */
    method IssueCredential(claims: Claims, ttlMs: int, now: int, token: Token,
        ghost source: Source) returns (expiresAt: Option<int>)
      modifies this
      ensures expiresAt.None? <==> ttlMs <= 0 || claims.subject == "" || claims.clientId == "" || claims.family == ""
      ensures if expiresAt.None? then Model() == old(Model())
              else expiresAt.value == now + ttlMs
                   && Model() == Issue(old(Model()), claims.(expiresAt := now + ttlMs), now, token, source)
    {
      if ttlMs <= 0 {
        return None;
      }
      if claims.subject == "" || claims.clientId == "" || claims.family == "" {
        return None;
      }
      Enter(claims.(expiresAt := now + ttlMs), now, token, source);
      return Some(now + ttlMs);
    }

    /** What issuing does once its checks have passed. */
    method Enter(claims: Claims, now: int, token: Token, ghost source: Source)
      modifies this
      ensures Model() == Issue(old(Model()), claims, now, token, source)
    {
      SweepExpired(now);
      if claims.family !in established {
        established := established[claims.family := now];
      }
      live := live[token := claims];
      log := log + [Issued(token, claims, source)];
    }

    method Verify(token: Token, now: int) returns (claims: Option<Claims>)
      modifies this
      ensures claims == Verified(old(Model()), token, now)
      ensures Model() == AfterVerify(old(Model()), token, now)
    {
      if token !in live {
        return None;
      }
      if live[token].expiresAt <= now {
        live := live - {token};
        return None;
      }
      return Some(live[token]);
    }

    method Consume(token: Token, now: int) returns (outcome: Consumption)
      modifies this
      ensures outcome == ConsumeOutcome(old(Model()), token, now)
      ensures Model() == AfterConsume(old(Model()), token, now)
    {
      var claims := Verify(token, now);
      if claims.Some? {
        if claims.value.kind != Refresh {
          return NotConsumed(None);
        }
        live := live - {token};
        retired := retired[token := Retired(claims.value.family, claims.value.expiresAt)];
        return Consumed(claims.value);
      }
      if token !in retired || retired[token].expiresAt <= now {
        return NotConsumed(None);
      }
      var family := retired[token].family;
      Revoke(family);
      return NotConsumed(Some(family));
    }

    method Revoke(family: Family)
      modifies this
      ensures Model() == RevokeFamily(old(Model()), family)
    {
      var tokens := live.Keys;
      while tokens != {}
        invariant tokens <= old(live).Keys
        invariant forall t :: t in live <==> t in old(live) && (t in tokens || old(live)[t].family != family)
        invariant forall t :: t in live ==> live[t] == old(live)[t]
        invariant retired == old(retired) && established == old(established) && log == old(log) && clock == old(clock)
      {
        var t :| t in tokens;
        if live[t].family == family {
          live := live - {t};
        }
        tokens := tokens - {t};
      }
      tokens := retired.Keys;
      while tokens != {}
        invariant tokens <= old(retired).Keys
        invariant forall t :: t in retired <==> t in old(retired) && (t in tokens || old(retired)[t].family != family)
        invariant forall t :: t in retired ==> retired[t] == old(retired)[t]
        invariant live == RevokeFamily(old(Model()), family).live
        invariant established == old(established) && log == old(log) && clock == old(clock)
      {
        var t :| t in tokens;
        if retired[t].family == family {
          retired := retired - {t};
        }
        tokens := tokens - {t};
      }
      established := established - {family};
      log := log + [Revoked(family)];
    }
  }
}
