/** The bridge's cached access token: what it serves, what is left of its life then, and that
    Drop's verifier accepts it at that moment. */
module TokenCache {
  import opened Prelude
  import opened AccessToken

  /** The client's own margin, and its HTTP timeout. */
  const MARGIN: int := 30 * SECOND
  const TIMEOUT: int := 10 * SECOND
  const DROP_AUDIENCE := "homehub-drop"
  const CREATE_PERMISSION := "drop.item.create"

  /** What the exchange yields: an error, or a decoded response. */
  datatype Exchange = Failed | Response(token: string, expiresIn: int, audience: string, permissions: seq<string>)

  /** What the client demands of a response. */
  predicate Usable(e: Exchange) {
    e.Response? && e.token != "" && e.expiresIn >= 1 && e.audience == DROP_AUDIENCE
    && CREATE_PERMISSION in e.permissions
  }

  /** The signer's side: its codec, its named key, and the life of its tokens. */
  datatype Signing<!Key> = Signing(codec: Codec<Key>, key: Key, keyId: string, ttl: int)

  /** One token issued: for which request, when, and under which random identifier. */
  datatype Grant = Grant(request: Request, issuedAt: int, tokenId: string)

  function ClaimsOf<Key>(s: Signing<Key>, g: Grant): Claims { ClaimsFor(g.request, s.ttl, g.issuedAt, g.tokenId) }

  function TokenOf<Key>(s: Signing<Key>, g: Grant): string { Compact(s.codec, s.key, s.keyId, ClaimsOf(s, g)) }

  /** Signer and verifier agree on the key and on a life of whole seconds. */
  ghost predicate Agreed<Key(!new)>(s: Signing<Key>, v: Verifier<Key>) {
    && Lawful(s.codec) && Configured(v) && v.audience == DROP_AUDIENCE && s.keyId in v.keys && v.keys[s.keyId] == s.key
    && 30 * SECOND <= s.ttl <= v.maxTTL && s.ttl % SECOND == 0
  }

  /** A token that the signer issues for Drop. */
  ghost predicate Genuine<Key>(s: Signing<Key>, g: Grant) {
    && IssueRefusal(g.request).None? && g.request.audience == DROP_AUDIENCE && g.tokenId != ""
    && |TokenOf(s, g)| <= MAX_TOKEN_BYTES
  }

  /** A usable response carries a token issued while the exchange was under way, and announces its life. */
  ghost predicate Honest<Key>(s: Signing<Key>, e: Exchange, g: Grant, asked: int, answered: int) {
    Usable(e) ==>
      && Genuine(s, g) && asked <= g.issuedAt <= answered
      && e.token == TokenOf(s, g) && e.expiresIn == ClaimsOf(s, g).expires - ClaimsOf(s, g).issuedAt
  }

  class Client<!Key(!new)> {
    var token: string
    var expiresAt: int
    ghost const signing: Signing<Key>
    ghost const verifier: Verifier<Key>
    ghost var grant: Grant
    ghost var answeredAt: int

    /** The cache is empty, or holds a token received within the timeout of its issue, with the expiry that its
        announced life gives it. */
    ghost predicate Holds()
      reads this
    {
      && Agreed(signing, verifier)
      && (token != "" ==>
            && Genuine(signing, grant) && token == TokenOf(signing, grant)
            && grant.issuedAt <= answeredAt <= grant.issuedAt + TIMEOUT && expiresAt == answeredAt + signing.ttl)
    }

    constructor (ghost signing: Signing<Key>, ghost verifier: Verifier<Key>)
      requires Agreed(signing, verifier)
      ensures Holds() && token == "" && this.signing == signing && this.verifier == verifier
    {
      token, expiresAt := "", 0;
      this.signing, this.verifier := signing, verifier;
    }

    /** Whether the cached token is served. */
    predicate Fresh(now: int)
      reads this
    {
      token != "" && now + MARGIN < expiresAt
    }

    /** Token(ctx), asked at one time and, if it comes to an exchange, answered at another. A failed exchange leaves the
        cache as it is. Whatever is served verifies at that moment; from the cache it has more than 30 seconds to
        live, less what passed between its issue and its receipt: more than 19 seconds. */
    method Token(now: int, exchange: Exchange, answered: int, ghost issued: Grant) returns (r: Option<string>)
      requires Holds() && now <= answered <= now + TIMEOUT && Honest(signing, exchange, issued, now, answered)
      requires token != "" ==> answeredAt <= now
      modifies this
      ensures Holds()
      ensures old(Fresh(now)) || !Usable(exchange) ==>
                token == old(token) && expiresAt == old(expiresAt) && grant == old(grant)
                && answeredAt == old(answeredAt)
      ensures !old(Fresh(now)) && Usable(exchange) ==> grant == issued && answeredAt == answered
      ensures r == if !old(Fresh(now)) && !Usable(exchange) then None else Some(TokenOf(signing, grant))
      ensures old(token != "" && now + 30_000_000_000 < expiresAt) ==> r == Some(old(token))
      ensures !old(token != "" && now + 30_000_000_000 < expiresAt) ==>
                r == if exchange.Response? && exchange.token != "" && exchange.expiresIn >= 1
                        && exchange.audience == "homehub-drop" && "drop.item.create" in exchange.permissions
                     then Some(exchange.token) else None
      ensures r.Some? ==>
                Verify(signing.codec, verifier, r.value, if old(Fresh(now)) then now else answered)
                == Some(ClaimsOf(signing, grant))
      ensures old(Fresh(now)) ==>
                ClaimsOf(signing, grant).expires * SECOND - now
                > MARGIN - (answeredAt - ClaimsOf(signing, grant).issuedAt * SECOND) > 19 * SECOND
    {
      if token != "" && now + MARGIN < expiresAt {
        LifeLeft(signing, verifier, grant, answeredAt, now);
        return Some(token);
      }
      if !Usable(exchange) {
        return None;
      }
      LifeAnnounced(signing, issued);
      LifeLeft(signing, verifier, issued, answered, answered);
      token := exchange.token;
      expiresAt := answered + exchange.expiresIn * SECOND;
      grant, answeredAt := issued, answered;
      r := Some(token);
    }
  }

  lemma LifeAnnounced<Key>(s: Signing<Key>, g: Grant)
    requires 0 <= s.ttl && s.ttl % SECOND == 0
    ensures (ClaimsOf(s, g).expires - ClaimsOf(s, g).issuedAt) * SECOND == s.ttl
  {
    WholeSeconds(g.issuedAt, s.ttl);
  }

  /** A token received in time verifies for as long as more than the margin is left by the client's own reckoning. */
  lemma LifeLeft<Key(!new)>(s: Signing<Key>, v: Verifier<Key>, g: Grant, answered: int, now: int)
    requires Agreed(s, v) && Genuine(s, g) && g.issuedAt <= answered <= g.issuedAt + TIMEOUT && answered <= now
    requires now == answered || now + MARGIN < answered + s.ttl
    ensures Verify(s.codec, v, TokenOf(s, g), now) == Some(ClaimsOf(s, g))
    ensures now + MARGIN < answered + s.ttl ==>
              ClaimsOf(s, g).expires * SECOND - now
              > MARGIN - (answered - ClaimsOf(s, g).issuedAt * SECOND) > 19 * SECOND
  {
    hide Lawful, Verify, Compact, IssueRefusal, AudienceId;
    WholeSeconds(g.issuedAt, s.ttl);
    IssueThenVerify(s.codec, s.key, s.keyId, s.ttl, g.request, g.issuedAt, g.tokenId, v, now);
  }
}
