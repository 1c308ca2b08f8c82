/** Access tokens: what the signer issues and what the verifier makes of it. Times are nanoseconds; claims
    hold whole seconds. JSON, base64url and Ed25519 are parameters of which only the laws used are assumed. */
module AccessToken {
  import opened Prelude
  import opened Text

  const SECOND: int := 1_000_000_000
  const CLOCK_SKEW: int := 15 * SECOND
  const MAX_TOKEN_BYTES: int := 8192
  const ISSUER := "homehub-iam"
  const SYSTEM_ROOT := "system.root"

  datatype Claims =
    Claims(issuer: string, audience: string, subject: string, actor: Option<string>, authorizedParty: string,
           realm: string,
           permissions: seq<string>, sessionId: string, tokenId: string, delegationId: string,
           authentication: seq<string>, authenticationAt: int, issuedAt: int, notBefore: int, expires: int)

  datatype Request =
    Request(audience: string, subject: string, actor: string, authorizedParty: string, realm: string,
            permissions: seq<string>,
            sessionId: string, delegationId: string, authentication: seq<string>, authenticationAt: Option<int>)

  datatype Header = Header(algorithm: string, kind: string, keyId: string)

  /** time.Time.Unix, which rounds down. */
  function Unix(t: int): int { t / SECOND }

  // ---------------------------------------------------------------- the languages of names

  predicate Lower(c: char) { 'a' <= c <= 'z' }

  predicate Alphanumeric(c: char) { 'a' <= c <= 'z' || 'A' <= c <= 'Z' || '0' <= c <= '9' }

  /** [a-z][a-z0-9-]{0,max} */
  predicate Segment(s: string, max: nat) {
    1 <= |s| <= max + 1 && Lower(s[0]) && forall i :: 0 <= i < |s| ==> Lower(s[i]) || IsDigit(s[i]) || s[i] == '-'
  }

  /** [A-Za-z0-9][A-Za-z0-9._-]{0,127} */
  predicate Name(s: string) {
    1 <= |s| <= 128 && Alphanumeric(s[0]) && forall i :: 0 <= i < |s| ==> Alphanumeric(s[i]) || s[i] in "._-"
  }

  predicate HasPrefix(s: string, prefix: string) { |prefix| <= |s| && s[..|prefix|] == prefix }

  predicate SubjectName(s: string) { (HasPrefix(s, "human:") || HasPrefix(s, "share:")) && Name(s[6..]) }

  /** What the signer takes for an audience, and what a verifier may be configured with. */
  predicate AudienceName(s: string) { s == "homehub" || AudienceId(s) }

  predicate AudienceId(s: string) { HasPrefix(s, "homehub-") && Segment(s[8..], 54) }

  /** strings.Split(s, separator). */
  function Split(s: string, separator: char): (r: seq<string>)
    ensures |r| >= 1
  {
    if s == "" then [""]
    else
      var rest := Split(s[1..], separator);
      if s[0] == separator then [""] + rest else [[s[0]] + rest[0]] + rest[1..]
  }

  predicate Segments(s: string, least: nat, most: nat) {
    var parts := Split(s, '.');
    least <= |parts| <= most && forall i :: 0 <= i < |parts| ==> Segment(parts[i], 62)
  }

  /** The signer's scopes have two or three segments; the verifier's permissions one to three. */
  predicate ScopeName(s: string) { s == "*" || Segments(s, 2, 3) }

  predicate PermissionId(s: string) { s == "*" || Segments(s, 1, 3) }

  // ---------------------------------------------------------------- issuing

  /** The permissions without repetitions, in the order of their first occurrences. */
  function Deduplicated(values: seq<string>): seq<string>
    decreases |values|
  {
    if values == [] then []
    else
      var before, last := Deduplicated(values[..|values| - 1]), values[|values| - 1];
      if last in values[..|values| - 1] then before else before + [last]
  }

  lemma {:induction false} DeduplicatedSame(values: seq<string>, x: string)
    ensures x in Deduplicated(values) <==> x in values
    ensures values != [] ==> Deduplicated(values) != []
    decreases |values|
  {
    if values != [] {
      var before := values[..|values| - 1];
      assert values == before + [values[|values| - 1]];
      DeduplicatedSame(before, x);
    }
  }

  lemma {:induction false} DeduplicatedDistinct(values: seq<string>)
    ensures Distinct(Deduplicated(values))
    decreases |values|
  {
    if values != [] {
      var before, last := values[..|values| - 1], values[|values| - 1];
      DeduplicatedDistinct(before);
      DeduplicatedSame(before, last);
    }
  }

  datatype Refusal = BadRequest | BadSubject | BadActor | BadScope

  function FirstBad(values: seq<string>): Option<Refusal> {
    if values == [] then None else if !ScopeName(values[0]) then Some(BadScope) else FirstBad(values[1..])
  }

  /** Why Issue refuses a request, if it does. */
  function IssueRefusal(r: Request): Option<Refusal> {
    if !AudienceName(r.audience) || r.authorizedParty == "" || r.realm == "" || r.permissions == [] then
      Some(BadRequest)
    else if !SubjectName(r.subject) then Some(BadSubject)
    else if r.actor != "" && !SubjectName(r.actor) then Some(BadActor)
    else FirstBad(r.permissions)
  }

  /** The claims issued at time now for ttl nanoseconds, under a random token identifier. */
  function ClaimsFor(r: Request, ttl: int, now: int, tokenId: string): Claims {
    Claims(ISSUER, r.audience, r.subject, if r.actor != "" && r.actor != r.subject then Some(r.actor) else None,
           r.authorizedParty, r.realm, Deduplicated(r.permissions), r.sessionId, tokenId, r.delegationId,
           r.authentication,
           if r.authenticationAt.Some? then Unix(r.authenticationAt.value) else 0,
           Unix(now), Unix(now - 5 * SECOND), Unix(now + ttl))
  }

  method CollectPermissions(requested: seq<string>) returns (r: Outcome<seq<string>, Refusal>)
    ensures r == if FirstBad(requested).Some? then Err(FirstBad(requested).value) else Ok(Deduplicated(requested))
  {
    var permissions: seq<string> := [];
    var seen: set<string> := {};
    var i := 0;
    while i < |requested|
      invariant 0 <= i <= |requested|
      invariant FirstBad(requested) == FirstBad(requested[i..])
      invariant permissions == Deduplicated(requested[..i]) && seen == Elements(requested[..i])
    {
      var value := requested[i];
      assert requested[i..][1..] == requested[i + 1..];
      assert requested[..i + 1][..i] == requested[..i];
      assert requested[..i + 1] == requested[..i] + [value];
      if !ScopeName(value) {
        return Err(BadScope);
      }
      if value !in seen {
        seen := seen + {value};
        permissions := permissions + [value];
      }
      i := i + 1;
    }
    assert requested[..i] == requested;
    r := Ok(permissions);
  }

  // ---------------------------------------------------------------- the compact form

  /** Encoders and decoders of headers and claims, and signing and checking under a key. */
  datatype Codec<!Key> =
    Codec(encodeHeader: Header -> string, decodeHeader: string -> Option<Header>,
          encodeClaims: Claims -> string, decodeClaims: string -> Option<Claims>,
          sign: (Key, string) -> string, check: (Key, string, string) -> bool)

  /** What is encoded decodes to the same, no encoding contains a dot, and signatures check. */
  ghost predicate Lawful<Key(!new)>(codec: Codec<Key>) {
    && (forall h :: codec.decodeHeader(codec.encodeHeader(h)) == Some(h) && '.' !in codec.encodeHeader(h))
    && (forall c :: codec.decodeClaims(codec.encodeClaims(c)) == Some(c) && '.' !in codec.encodeClaims(c))
    && (forall k, m :: codec.check(k, m, codec.sign(k, m)) && '.' !in codec.sign(k, m))
  }

  function Compact<Key>(codec: Codec<Key>, key: Key, keyId: string, claims: Claims): string {
    var unsigned := codec.encodeHeader(Header("EdDSA", "at+jwt", keyId)) + "." + codec.encodeClaims(claims);
    unsigned + "." + codec.sign(key, unsigned)
  }

  /** Issue(request) by a signer with the given key, at time now. */
  method Issue<Key>(codec: Codec<Key>, key: Key, keyId: string, ttl: int, r: Request, now: int, tokenId: string)
    returns (issued: Outcome<(string, Claims), Refusal>)
    ensures issued.Err? <==> IssueRefusal(r).Some?
    ensures issued.Err? ==> issued.error == IssueRefusal(r).value
    ensures issued.Ok? ==>
              var claims := ClaimsFor(r, ttl, now, tokenId);
              issued.value == (Compact(codec, key, keyId, claims), claims)
    ensures issued.Ok? ==>
              var (token, c) := issued.value;
              var unsigned := codec.encodeHeader(Header("EdDSA", "at+jwt", keyId)) + "." + codec.encodeClaims(c);
              && token == unsigned + "." + codec.sign(key, unsigned)
              && c.issuer == "homehub-iam" && c.audience == r.audience && c.realm == r.realm && c.subject == r.subject
              && c.actor == (if r.actor == "" || r.actor == r.subject then None else Some(r.actor))
              && c.authorizedParty == r.authorizedParty && c.sessionId == r.sessionId && c.tokenId == tokenId
              && c.delegationId == r.delegationId && c.authentication == r.authentication
              && (forall p :: p in c.permissions <==> p in r.permissions) && Distinct(c.permissions)
              && c.authenticationAt == (match r.authenticationAt case None => 0 case Some(t) => t / 1_000_000_000)
              && c.issuedAt == now / 1_000_000_000 && c.notBefore == (now - 5_000_000_000) / 1_000_000_000
              && c.expires == (now + ttl) / 1_000_000_000
  {
    DeduplicatedDistinct(r.permissions);
    forall p ensures p in Deduplicated(r.permissions) <==> p in r.permissions { DeduplicatedSame(r.permissions, p); }
    if !AudienceName(r.audience) || r.authorizedParty == "" || r.realm == "" || |r.permissions| == 0 {
      return Err(BadRequest);
    }
    if !SubjectName(r.subject) {
      return Err(BadSubject);
    }
    if r.actor != "" && !SubjectName(r.actor) {
      return Err(BadActor);
    }
    var collected := CollectPermissions(r.permissions);
    if collected.Err? {
      return Err(collected.error);
    }
    var claims :=
      Claims(ISSUER, r.audience, r.subject, None, r.authorizedParty, r.realm, collected.value, r.sessionId, tokenId,
             r.delegationId,
             r.authentication, 0, Unix(now), Unix(now - 5 * SECOND), Unix(now + ttl));
    if r.actor != "" && r.actor != r.subject {
      claims := claims.(actor := Some(r.actor));
    }
    if r.authenticationAt.Some? {
      claims := claims.(authenticationAt := Unix(r.authenticationAt.value));
    }
    var unsigned := codec.encodeHeader(Header("EdDSA", "at+jwt", keyId)) + "." + codec.encodeClaims(claims);
    issued := Ok((unsigned + "." + codec.sign(key, unsigned), claims));
  }

  // ---------------------------------------------------------------- verifying

  datatype Verifier<Key> = Verifier(keys: map<string, Key>, audience: string, maxTTL: int)

  /** What NewVerifier accepts. */
  predicate Configured<Key>(v: Verifier<Key>) {
    && v.keys != map[] && (forall k :: k in v.keys ==> TrimSpace(k) != "")
    && AudienceId(v.audience) && 30 * SECOND <= v.maxTTL <= 15 * 60 * SECOND
  }

  predicate Valid(c: Claims, audience: string, maxTTL: int, now: int) {
    var notBefore := if c.notBefore == 0 then c.issuedAt else c.notBefore;
    && c.issuer == ISSUER && c.audience == audience && c.realm != "" && SubjectName(c.subject)
    && c.authorizedParty != "" && c.tokenId != "" && c.permissions != []
    && now < c.expires * SECOND && c.issuedAt * SECOND <= now + CLOCK_SKEW && notBefore * SECOND <= now + CLOCK_SKEW
    && c.issuedAt <= c.expires && (c.expires - c.issuedAt) * SECOND <= maxTTL
    && (c.actor.Some? ==> SubjectName(c.actor.value))
    && (forall i :: 0 <= i < |c.permissions| ==> c.permissions[i] == SYSTEM_ROOT || PermissionId(c.permissions[i]))
  }

  /** Verify(token) at time now; None stands for each of its errors. */
  function Verify<Key>(codec: Codec<Key>, v: Verifier<Key>, token: string, now: int): Option<Claims> {
    var parts := Split(token, '.');
    if token == "" || |token| > MAX_TOKEN_BYTES || |parts| != 3 then None
    else
      var header := codec.decodeHeader(parts[0]);
      if header.None? || header.value.algorithm != "EdDSA" || header.value.kind != "at+jwt"
         || header.value.keyId == ""
      then None
      else if header.value.keyId !in v.keys then None
      else if !codec.check(v.keys[header.value.keyId], parts[0] + "." + parts[1], parts[2]) then None
      else
        var claims := codec.decodeClaims(parts[1]);
        if claims.Some? && Valid(claims.value, v.audience, v.maxTTL, now) then claims else None
  }

  lemma {:induction false} SplitPlain(s: string)
    requires '.' !in s
    ensures Split(s, '.') == [s]
  {
    if s != "" {
      assert s[0] in s;
      SplitPlain(s[1..]);
      assert [s[0]] + s[1..] == s;
    }
  }

  lemma {:induction false} SplitFirst(a: string, rest: string)
    requires '.' !in a
    ensures Split(a + "." + rest, '.') == [a] + Split(rest, '.')
  {
    var s := a + "." + rest;
    if a == "" {
      assert s[0] == '.' && s[1..] == rest;
    } else {
      assert a[0] in a && s[0] == a[0] && s[1..] == a[1..] + "." + rest;
      SplitFirst(a[1..], rest);
      assert [a[0]] + a[1..] == a;
      assert ([a[1..]] + Split(rest, '.'))[1..] == Split(rest, '.');
    }
  }

  /** strings.Join. */
  function Join(parts: seq<string>, separator: char): string
    requires parts != []
  { if |parts| == 1 then parts[0] else parts[0] + [separator] + Join(parts[1..], separator) }

  /** Splitting is the inverse of joining pieces without separators. */
  lemma {:induction false} SplitJoins(s: string, separator: char)
    ensures Join(Split(s, separator), separator) == s
    ensures forall i :: 0 <= i < |Split(s, separator)| ==> separator !in Split(s, separator)[i]
  {
    if s != "" {
      var rest := Split(s[1..], separator);
      SplitJoins(s[1..], separator);
      if s[0] == separator {
        assert ([""] + rest)[1..] == rest;
      } else {
        assert ([[s[0]] + rest[0]] + rest[1..])[1..] == rest[1..];
      }
    }
  }

  lemma ThreePieces(s: string)
    requires |Split(s, '.')| == 3
    ensures var parts := Split(s, '.');
            && s == parts[0] + "." + parts[1] + "." + parts[2]
            && '.' !in parts[0] && '.' !in parts[1] && '.' !in parts[2]
  {
    var parts := Split(s, '.');
    SplitJoins(s, '.');
    assert Join(parts[2..], '.') == parts[2];
    assert Join(parts[1..], '.') == parts[1] + "." + parts[2] by { assert parts[1..][1..] == parts[2..]; }
  }

  /** The compact form comes apart into its three pieces and no others. */
  lemma CompactSplits(a: string, b: string, c: string)
    requires '.' !in a && '.' !in b && '.' !in c
    ensures Split(a + "." + b + "." + c, '.') == [a, b, c]
  {
    assert a + "." + b + "." + c == a + "." + (b + "." + c);
    SplitFirst(a, b + "." + c);
    SplitFirst(b, c);
    SplitPlain(c);
  }

  /** The header names an algorithm, a kind, and a key that the verifier has, and the third piece is a signature under
      that key of the first two, with the dot between them. */
  ghost predicate Signed<Key(!new)>(codec: Codec<Key>, v: Verifier<Key>, a: string, b: string, c: string) {
    && '.' !in a && '.' !in b && '.' !in c
    && exists id :: id != "" && id in v.keys && codec.decodeHeader(a) == Some(Header("EdDSA", "at+jwt", id))
                    && codec.check(v.keys[id], a + "." + b, c)
  }

  /** Whatever token is presented: it verifies to claims exactly if it is a signed compact form, of at most 8192 bytes,
      of claims that are for this audience, within their times and the ceiling, and well formed. */
  lemma VerifiedExactlyWhen<Key(!new)>(codec: Codec<Key>, v: Verifier<Key>, token: string, now: int, claims: Claims)
    ensures Verify(codec, v, token, now) == Some(claims) <==>
            && |token| <= 8192
            && (exists a, b, c :: token == a + "." + b + "." + c && codec.decodeClaims(b) == Some(claims)
                                  && Signed(codec, v, a, b, c))
            && claims.issuer == "homehub-iam" && claims.audience == v.audience && claims.realm != ""
            && claims.authorizedParty != "" && claims.tokenId != "" && claims.permissions != []
            && SubjectName(claims.subject) && (claims.actor.Some? ==> SubjectName(claims.actor.value))
            && (forall p :: p in claims.permissions ==> p == "system.root" || PermissionId(p))
            && now < claims.expires * 1_000_000_000
            && claims.issuedAt * 1_000_000_000 <= now + 15_000_000_000
            && (claims.notBefore != 0 ==> claims.notBefore * 1_000_000_000 <= now + 15_000_000_000)
            && 0 <= (claims.expires - claims.issuedAt) * 1_000_000_000 <= v.maxTTL
  {
    hide SubjectName, PermissionId;
    var parts := Split(token, '.');
    if |parts| == 3 { ThreePieces(token); }
    if a, b, c :| token == a + "." + b + "." + c && codec.decodeClaims(b) == Some(claims) && Signed(codec, v, a, b, c) {
      CompactSplits(a, b, c);
    }
    if Verify(codec, v, token, now) == Some(claims) {
      assert codec.decodeHeader(parts[0]) == Some(Header("EdDSA", "at+jwt", codec.decodeHeader(parts[0]).value.keyId));
      assert Signed(codec, v, parts[0], parts[1], parts[2]);
    }
  }

  /** One call of Issue that succeeded. */
  datatype Issuance = Issuance(request: Request, ttl: int, at: int, tokenId: string, keyId: string)

  /** Nothing checks under the verifier's keys but what the signer has signed when it issued something. */
  ghost predicate OnlyIssuedChecks<Key(!new)>(codec: Codec<Key>, v: Verifier<Key>, issued: iset<Issuance>) {
    forall id, m, s :: id in v.keys && codec.check(v.keys[id], m, s) ==> exists i :: i in issued && Signs(codec, i, m)
  }

  ghost predicate Signs<Key(!new)>(codec: Codec<Key>, i: Issuance, m: string) {
    && IssueRefusal(i.request).None?
    && m == codec.encodeHeader(Header("EdDSA", "at+jwt", i.keyId)) + "."
            + codec.encodeClaims(ClaimsFor(i.request, i.ttl, i.at, i.tokenId))
  }

  /** As long as signatures cannot be forged, every token that verifies carries the claims of a token that was issued,
      whoever put it together. */
  lemma OnlyIssuedVerify<Key(!new)>(codec: Codec<Key>, v: Verifier<Key>, issued: iset<Issuance>, token: string,
                                    now: int)
    requires Lawful(codec) && OnlyIssuedChecks(codec, v, issued) && Verify(codec, v, token, now).Some?
    ensures exists i :: i in issued && IssueRefusal(i.request).None?
                        && Verify(codec, v, token, now).value == ClaimsFor(i.request, i.ttl, i.at, i.tokenId)
  {
    hide Verify, ClaimsFor, IssueRefusal, SubjectName, PermissionId;
    var claims := Verify(codec, v, token, now).value;
    VerifiedExactlyWhen(codec, v, token, now, claims);
    var a, b, c :| token == a + "." + b + "." + c && codec.decodeClaims(b) == Some(claims) && Signed(codec, v, a, b, c);
    var id :| id in v.keys && codec.check(v.keys[id], a + "." + b, c);
    var i :| i in issued && Signs(codec, i, a + "." + b);
    var x, y := codec.encodeHeader(Header("EdDSA", "at+jwt", i.keyId)),
                codec.encodeClaims(ClaimsFor(i.request, i.ttl, i.at, i.tokenId));
    CutInjective('.', a, b, x, y);
  }

  /** A subject is human: or share: and a name of up to 128 letters, digits, dots, underscores and hyphens. */
  lemma SubjectIs(s: string)
    ensures SubjectName(s) <==>
            && 7 <= |s| <= 134 && (s[..6] == "human:" || s[..6] == "share:")
            && ('a' <= s[6] <= 'z' || 'A' <= s[6] <= 'Z' || '0' <= s[6] <= '9')
            && forall c :: c in s[6..] ==>
                 'a' <= c <= 'z' || 'A' <= c <= 'Z' || '0' <= c <= '9' || c == '.' || c == '_' || c == '-'
  {
    assert forall i :: 6 <= i < |s| ==> s[i] == s[6..][i - 6];
    if 7 <= |s| && forall c :: c in s[6..] ==> Alphanumeric(c) || c in "._-" {
      forall i | 0 <= i < |s[6..]| ensures Alphanumeric(s[6..][i]) || s[6..][i] in "._-" { assert s[6..][i] in s[6..]; }
    }
  }

  /** An audience is homehub, or homehub- and a piece of up to 55 characters like those of a permission. */
  lemma AudienceIs(s: string)
    ensures AudienceName(s) <==>
            s == "homehub" ||
            (9 <= |s| <= 63 && s[..8] == "homehub-" && 'a' <= s[8] <= 'z'
             && forall c :: c in s[8..] ==> 'a' <= c <= 'z' || '0' <= c <= '9' || c == '-')
  {
    if 9 <= |s| && forall c :: c in s[8..] ==> 'a' <= c <= 'z' || '0' <= c <= '9' || c == '-' {
      forall i | 0 <= i < |s[8..]| ensures Lower(s[8..][i]) || IsDigit(s[8..][i]) || s[8..][i] == '-' {
        assert s[8..][i] in s[8..];
      }
    }
  }

  /** What a permission may be, but for the star: pieces joined by dots, each of them a lower-case letter and up to 62
      lower-case letters, digits and hyphens. */
  lemma SegmentsAre(s: string, least: nat, most: nat)
    requires 0 < least
    ensures Segments(s, least, most) <==>
            exists parts: seq<string> :: least <= |parts| <= most && Join(parts, '.') == s && AllSegments(parts)
  {
    SplitJoins(s, '.');
    if Segments(s, least, most) { SegmentsMean(Split(s, '.')); }
    if parts: seq<string> :| least <= |parts| <= most && Join(parts, '.') == s && AllSegments(parts) {
      SegmentsMean(parts);
      JoinSplits(parts);
    }
  }

  predicate AllSegments(parts: seq<string>) {
    forall i :: 0 <= i < |parts| ==>
      && 1 <= |parts[i]| <= 63 && 'a' <= parts[i][0] <= 'z'
      && forall c :: c in parts[i] ==> 'a' <= c <= 'z' || '0' <= c <= '9' || c == '-'
  }

  lemma SegmentsMean(parts: seq<string>)
    ensures AllSegments(parts) <==> forall i :: 0 <= i < |parts| ==> Segment(parts[i], 62)
  {
    if AllSegments(parts) {
      forall i | 0 <= i < |parts| ensures Segment(parts[i], 62) {
        assert forall k :: 0 <= k < |parts[i]| ==> parts[i][k] in parts[i];
      }
    }
  }

  lemma {:induction false} JoinSplits(parts: seq<string>)
    requires parts != [] && forall i :: 0 <= i < |parts| ==> '.' !in parts[i]
    ensures Split(Join(parts, '.'), '.') == parts
  {
    if |parts| == 1 {
      SplitPlain(parts[0]);
    } else {
      JoinSplits(parts[1..]);
      SplitFirst(parts[0], Join(parts[1..], '.'));
    }
  }

  lemma {:induction false} ScopesArePermissions(values: seq<string>, i: nat)
    requires FirstBad(values).None? && i < |values|
    ensures ScopeName(values[i]) && PermissionId(values[i])
  {
    if i > 0 { ScopesArePermissions(values[1..], i - 1); }
  }

  /** Of the conditions on issued claims, only the audience and the times can fail. */
  lemma IssuedValid(r: Request, ttl: int, issuedAt: int, tokenId: string, audience: string, maxTTL: int, now: int)
    requires IssueRefusal(r).None? && tokenId != "" && 0 <= ttl && ttl % SECOND == 0
    ensures var c := ClaimsFor(r, ttl, issuedAt, tokenId);
            && c.expires == c.issuedAt + ttl / SECOND
            && (Valid(c, audience, maxTTL, now) <==>
                  r.audience == audience && ttl <= maxTTL
                  && c.issuedAt * SECOND - CLOCK_SKEW <= now < c.expires * SECOND)
  {
    hide Segments, Name;
    var c := ClaimsFor(r, ttl, issuedAt, tokenId);
    WholeSeconds(issuedAt, ttl);
    DeduplicatedSame(r.permissions, "");
    forall i | 0 <= i < |c.permissions| ensures PermissionId(c.permissions[i]) {
      DeduplicatedSame(r.permissions, c.permissions[i]);
      var j :| 0 <= j < |r.permissions| && r.permissions[j] == c.permissions[i];
      ScopesArePermissions(r.permissions, j);
    }
  }

  lemma WholeSeconds(t: int, ttl: int)
    requires 0 <= ttl && ttl % SECOND == 0
    ensures Unix(t + ttl) == Unix(t) + ttl / SECOND && Unix(t - 5 * SECOND) == Unix(t) - 5
    ensures ttl / SECOND * SECOND == ttl
  {
  }

  /** Issue, then verify: with the audience and key agreed, whole seconds of life within the verifier's ceiling, and a
      token of at most 8192 bytes, the issued claims come back from 15 seconds before their issue up
      to, and not including, their expiry, and nothing comes back at any other time. */
  lemma IssueThenVerify<Key(!new)>(codec: Codec<Key>, key: Key, keyId: string, ttl: int, r: Request, issuedAt: int,
                            tokenId: string,
                                   v: Verifier<Key>, now: int)
    requires Lawful(codec) && IssueRefusal(r).None? && tokenId != "" && 0 <= ttl <= v.maxTTL && ttl % SECOND == 0
    requires Configured(v) && keyId in v.keys && v.keys[keyId] == key && v.audience == r.audience
    requires |Compact(codec, key, keyId, ClaimsFor(r, ttl, issuedAt, tokenId))| <= MAX_TOKEN_BYTES
    ensures var claims := ClaimsFor(r, ttl, issuedAt, tokenId);
            Verify(codec, v, Compact(codec, key, keyId, claims), now)
            == if Unix(issuedAt) * SECOND - CLOCK_SKEW <= now < (Unix(issuedAt) + ttl / SECOND) * SECOND
               then Some(claims) else None
  {
    hide ClaimsFor, IssueRefusal, Valid;
    assert keyId != "" by { assert TrimSpace("") == ""; }
    var claims := ClaimsFor(r, ttl, issuedAt, tokenId);
    var header := codec.encodeHeader(Header("EdDSA", "at+jwt", keyId));
    var payload := codec.encodeClaims(claims);
    CompactSplits(header, payload, codec.sign(key, header + "." + payload));
    IssuedValid(r, ttl, issuedAt, tokenId, v.audience, v.maxTTL, now);
    IssuedAt(r, ttl, issuedAt, tokenId);
  }

  lemma IssuedAt(r: Request, ttl: int, issuedAt: int, tokenId: string)
    ensures ClaimsFor(r, ttl, issuedAt, tokenId).issuedAt == Unix(issuedAt)
  {
  }

  /** The one audience that the signer accepts and no verifier can be configured with. */
  lemma BareAudienceIsNeverVerified<Key>(codec: Codec<Key>, v: Verifier<Key>, token: string, now: int, audience: string)
    requires Configured(v) && AudienceName(audience)
    ensures (exists w: Verifier<Key> :: Configured(w) && w.audience == audience) <==> audience != "homehub"
    ensures Verify(codec, v, token, now).Some? ==> Verify(codec, v, token, now).value.audience != "homehub"
  {
    if audience != "homehub" {
      assert Configured(v.(audience := audience)) && v.(audience := audience).audience == audience;
    }
  }

  /** A verified token allows exactly what was asked for when it was issued, or everything. */
  predicate Allows(c: Claims, expected: string) { expected in c.permissions || SYSTEM_ROOT in c.permissions }

  lemma IssuedAllows(r: Request, ttl: int, issuedAt: int, tokenId: string, expected: string)
    ensures Allows(ClaimsFor(r, ttl, issuedAt, tokenId), expected) <==>
              expected in r.permissions || SYSTEM_ROOT in r.permissions
    ensures Distinct(ClaimsFor(r, ttl, issuedAt, tokenId).permissions)
  {
    DeduplicatedSame(r.permissions, expected);
    DeduplicatedSame(r.permissions, SYSTEM_ROOT);
    DeduplicatedDistinct(r.permissions);
  }
}
