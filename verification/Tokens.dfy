/** Bootstrap tokens: when a stored one is still good, and where a new one comes from. */
module Tokens {
  import opened Common

  /** A timestamp field of a secret: missing, unreadable, or an instant in nanoseconds. */
  datatype Stamp = Absent | Garbled | At(ns: int)

  /** A secret of the cluster namespace. `invalidSince` is its legacy-token-invalid-since label. */
  datatype TokenSecret = TokenSecret(saType: bool, name: string, token: Option<string>, invalidSince: Option<Stamp>)

  datatype Credential = Credential(token: string, creation: Stamp, expiration: Stamp)

  // ---- durations ----

  const MaxDuration: int := 0x7fff_ffff_ffff_ffff
  const MinDuration: int := -0x8000_0000_0000_0000

  /** constants.DefaultSecretTokenRefreshThreshold: a fifth of 360 days. */
  const DefaultThreshold: int := 72 * 24 * 3600 * 1_000_000_000

  /** The difference of two instants, held within a 64-bit duration. */
  function Saturated(d: int): (r: int)
    ensures MinDuration <= r <= MaxDuration
    ensures r == d || (d < r == MinDuration) || (d > r == MaxDuration)
  {
    if d > MaxDuration then MaxDuration else if d < MinDuration then MinDuration else d
  }

  /** A fifth, rounded toward zero. */
  function Fifth(d: int): (r: int)
    ensures d >= 0 ==> 5 * r <= d < 5 * r + 5
    ensures d < 0 ==> 5 * r - 5 < d <= 5 * r
  {
    if d >= 0 then d / 5 else -((-d) / 5)
  }

  /** How long before its expiration a token is refreshed. */
  function Threshold(creation: Stamp, expiration: int): (r: int)
  {
    match creation
    case At(c) => Fifth(Saturated(expiration - c))
    case _ => DefaultThreshold
  }

  /** The test of validateTokenExpiration at instant `now`. */
  predicate InDate(c: Credential, now: int) {
    && c.token != ""
    && match c.expiration
       case Absent => true
       case Garbled => false
       case At(e) => !c.creation.Garbled? && Saturated(e - now) > Threshold(c.creation, e)
  }

  /** A token found out of date is out of date ever after. */
  lemma OutOfDateForGood(c: Credential, now: int, later: int)
    requires now <= later && !InDate(c, now)
    ensures !InDate(c, later)
  {
    if c.expiration.At? {
      assert Saturated(c.expiration.ns - later) <= Saturated(c.expiration.ns - now);
    }
  }

  /** A token in date does not expire for as long as its refresh threshold. */
  lemma InDateLasts(c: Credential, now: int, t: int)
    requires InDate(c, now) && c.expiration.At? && c.creation.At?
    requires t <= now + Threshold(c.creation, c.expiration.ns)
    ensures t < c.expiration.ns
  {
  }

  // ---- legacy tokens ----

  const MaxGeneratedNameLength := 58

  function TokenPrefix(saName: string): (r: string)
    ensures |r| <= MaxGeneratedNameLength
  {
    var p := saName + "-token-";
    if |p| > MaxGeneratedNameLength then p[..MaxGeneratedNameLength] else p
  }

  /** The secret is a token secret of this service account and holds a token. */
  predicate Eligible(s: TokenSecret, saName: string) {
    s.saType && TokenPrefix(saName) <= s.name && s.token.Some? && s.token.value != ""
  }

  /** The cluster has declared the token of this secret invalid. */
  predicate Revoked(s: TokenSecret, now: int) {
    match s.invalidSince
    case None => false
    case Some(At(t)) => now > t
    case Some(_) => true
  }

  /** What the checker decides: the first eligible secret with this token, and its label. */
  predicate LegacyValid(secrets: seq<TokenSecret>, saName: string, token: string, now: int) {
    if secrets == [] then false
    else if Eligible(secrets[0], saName) && secrets[0].token.value == token then !Revoked(secrets[0], now)
    else LegacyValid(secrets[1..], saName, token, now)
  }

  /** What the issuer takes: the token of the first eligible secret that is not revoked. */
  function LegacyToken(secrets: seq<TokenSecret>, saName: string, now: int): (r: Option<string>)
  {
    if secrets == [] then None
    else if Eligible(secrets[0], saName) && !Revoked(secrets[0], now) then Some(secrets[0].token.value)
    else LegacyToken(secrets[1..], saName, now)
  }

  method ValidateLegacyServiceAccountToken(secrets: Result<seq<TokenSecret>>, saName: string, expected: string, now: int)
    returns (valid: bool)
    ensures valid <==> expected != "" && secrets.Ok? && LegacyValid(secrets.value, saName, expected, now)
  {
    if |expected| == 0 || secrets.Err? {
      return false;
    }
    var items := secrets.value;
    var prefix := saName + "-token-";
    if |prefix| > MaxGeneratedNameLength {
      prefix := prefix[..MaxGeneratedNameLength];
    }
    assert items[0..] == items;
    for i := 0 to |items|
      invariant LegacyValid(items, saName, expected, now) == LegacyValid(items[i..], saName, expected, now)
    {
      assert items[i..][1..] == items[i + 1..];
      var secret := items[i];
      if !secret.saType {
        continue;
      }
      if !(prefix <= secret.name) {
        continue;
      }
      if secret.token.None? || |secret.token.value| == 0 {
        continue;
      }
      if secret.token.value == expected {
        if secret.invalidSince.Some? {
          if !secret.invalidSince.value.At? {
            return false;
          }
          if now > secret.invalidSince.value.ns {
            return false;
          }
        }
        return true;
      }
    }
    return false;
  }

  /** A legacy token if there is one, else a requested one. */
  function NewCredential(secrets: Result<seq<TokenSecret>>, saName: string, now: int, issued: Result<Credential>)
    : (r: Result<Credential>)
  {
    if secrets.Err? then Err
    else
      match LegacyToken(secrets.value, saName, now)
      case Some(t) => Ok(Credential(t, Absent, Absent))
      case None => issued
  }

  method GetBootstrapToken(secrets: Result<seq<TokenSecret>>, saName: string, now: int, issued: Result<Credential>)
    returns (r: Result<Credential>)
    ensures r == NewCredential(secrets, saName, now, issued)
  {
    if secrets.Err? {
      return Err;
    }
    var items := secrets.value;
    assert items[0..] == items;
    for i := 0 to |items|
      invariant LegacyToken(items, saName, now) == LegacyToken(items[i..], saName, now)
    {
      assert items[i..][1..] == items[i + 1..];
      var secret := items[i];
      if !secret.saType {
        continue;
      }
      var prefix := saName + "-token-";
      if |prefix| > MaxGeneratedNameLength {
        prefix := prefix[..MaxGeneratedNameLength];
      }
      if !(prefix <= secret.name) {
        continue;
      }
      if secret.token.None? {
        continue;
      }
      if |secret.token.value| == 0 {
        continue;
      }
      if secret.invalidSince.Some? {
        if !secret.invalidSince.value.At? {
          continue;
        }
        if now > secret.invalidSince.value.ns {
          continue;
        }
      }
      return Ok(Credential(secret.token.value, Absent, Absent));
    }
    return issued;
  }

  /** Whether the secret at `j` is the one the issuer takes. */
  predicate IsIssuing(secrets: seq<TokenSecret>, saName: string, now: int, j: nat) {
    && j < |secrets|
    && Eligible(secrets[j], saName) && !Revoked(secrets[j], now)
    && forall i | 0 <= i < j :: Eligible(secrets[i], saName) ==> Revoked(secrets[i], now)
  }

  predicate DistinctTokens(secrets: seq<TokenSecret>, saName: string) {
    forall i, j | 0 <= i < j < |secrets| && Eligible(secrets[i], saName) && Eligible(secrets[j], saName) ::
      secrets[i].token != secrets[j].token
  }

  lemma {:induction false} IssuedFrom(secrets: seq<TokenSecret>, saName: string, now: int) returns (j: nat)
    requires LegacyToken(secrets, saName, now).Some?
    ensures IsIssuing(secrets, saName, now, j) && secrets[j].token == LegacyToken(secrets, saName, now)
  {
    if Eligible(secrets[0], saName) && !Revoked(secrets[0], now) {
      j := 0;
    } else {
      j := IssuedFrom(secrets[1..], saName, now);
      assert forall i | 0 < i < |secrets| :: secrets[1..][i - 1] == secrets[i];
      j := j + 1;
    }
  }

  /** The checker stops at the first eligible secret with the token. */
  lemma {:induction false} CheckerStops(secrets: seq<TokenSecret>, saName: string, now: int, token: string, i: nat)
    requires i < |secrets| && Eligible(secrets[i], saName) && secrets[i].token.value == token
    requires forall k | 0 <= k < i :: !(Eligible(secrets[k], saName) && secrets[k].token.value == token)
    ensures LegacyValid(secrets, saName, token, now) <==> !Revoked(secrets[i], now)
  {
    if i > 0 {
      assert forall k | 0 < k < |secrets| :: secrets[1..][k - 1] == secrets[k];
      CheckerStops(secrets[1..], saName, now, token, i - 1);
    }
  }

  lemma {:induction false} FirstWithToken(secrets: seq<TokenSecret>, saName: string, token: string, n: nat) returns (i: nat)
    requires n < |secrets| && Eligible(secrets[n], saName) && secrets[n].token.value == token
    ensures i <= n && Eligible(secrets[i], saName) && secrets[i].token.value == token
    ensures forall k | 0 <= k < i :: !(Eligible(secrets[k], saName) && secrets[k].token.value == token)
  {
    if k :| 0 <= k < n && Eligible(secrets[k], saName) && secrets[k].token.value == token {
      i := FirstWithToken(secrets, saName, token, k);
    } else {
      i := n;
    }
  }

  /** The checker accepts what the issuer hands out exactly when no eligible secret before the issuing one holds the same token. */
  lemma IssuerAndCheckerAgreeExactly(secrets: seq<TokenSecret>, saName: string, now: int, j: nat)
    requires IsIssuing(secrets, saName, now, j)
    ensures LegacyValid(secrets, saName, secrets[j].token.value, now) <==>
            forall i | 0 <= i < j && Eligible(secrets[i], saName) :: secrets[i].token != secrets[j].token
  {
    var i := FirstWithToken(secrets, saName, secrets[j].token.value, j);
    CheckerStops(secrets, saName, now, secrets[j].token.value, i);
  }

  /** With distinct tokens the issued one is always accepted at the same instant. */
  lemma DistinctTokensAgree(secrets: seq<TokenSecret>, saName: string, now: int)
    requires DistinctTokens(secrets, saName) && LegacyToken(secrets, saName, now).Some?
    ensures LegacyValid(secrets, saName, LegacyToken(secrets, saName, now).value, now)
  {
    var j := IssuedFrom(secrets, saName, now);
    IssuerAndCheckerAgreeExactly(secrets, saName, now, j);
  }

  /** Two secrets with the same token, the first revoked: issued and refused in one breath. */
  lemma SharedTokenDisagrees()
    ensures var revoked := TokenSecret(true, "a-token-x", Some("t"), Some(At(1)));
            var valid := TokenSecret(true, "a-token-y", Some("t"), None);
            LegacyToken([revoked, valid], "a", 5) == Some("t") && !LegacyValid([revoked, valid], "a", "t", 5)
  {
    var revoked := TokenSecret(true, "a-token-x", Some("t"), Some(At(1)));
    var valid := TokenSecret(true, "a-token-y", Some("t"), None);
    assert TokenPrefix("a") == "a-token-";
    assert "a-token-" <= "a-token-x" && "a-token-" <= "a-token-y";
    assert [revoked, valid][1..] == [valid];
  }

  /** Once refused, a legacy token stays refused while the secrets stay as they are. */
  lemma {:induction false} LegacyRefusedForGood(secrets: seq<TokenSecret>, saName: string, token: string, now: int, later: int)
    requires now <= later && !LegacyValid(secrets, saName, token, now)
    ensures !LegacyValid(secrets, saName, token, later)
  {
    if secrets != [] && !(Eligible(secrets[0], saName) && secrets[0].token.value == token) {
      LegacyRefusedForGood(secrets[1..], saName, token, now, later);
    }
  }

  // ---- the same decisions, told from the listed secrets ----

  /** The part of a generated secret name that stands for the service account. */
  function GeneratedPrefix(saName: string): (r: string)
  {
    if |saName| <= 51 then saName + "-token-" else (saName + "-token-")[..58]
  }

  /** A token secret of this service account that holds this token. */
  predicate HoldsToken(s: TokenSecret, saName: string, token: string) {
    token != "" && s.saType && GeneratedPrefix(saName) <= s.name && s.token == Some(token)
  }

  /** No invalid-since label, or an instant that has not passed. */
  predicate Standing(s: TokenSecret, now: int) {
    s.invalidSince.None? || (s.invalidSince.value.At? && now <= s.invalidSince.value.ns)
  }

  /** Some secret of the service account holds the token, and the first one that does stands. */
  predicate FirstHolderStands(secrets: seq<TokenSecret>, saName: string, token: string, now: int) {
    exists i | 0 <= i < |secrets| ::
      && HoldsToken(secrets[i], saName, token) && Standing(secrets[i], now)
      && forall k | 0 <= k < i :: !HoldsToken(secrets[k], saName, token)
  }

  /** The token is in the first secret of the service account that holds any and stands. */
  predicate FirstStandingHolds(secrets: seq<TokenSecret>, saName: string, token: string, now: int) {
    exists i | 0 <= i < |secrets| ::
      && HoldsToken(secrets[i], saName, token) && Standing(secrets[i], now)
      && forall k | 0 <= k < i :: Unusable(secrets[k], saName, now)
  }

  /** The secret is not of this service account, holds no token or does not stand. */
  predicate Unusable(s: TokenSecret, saName: string, now: int) {
    !s.saType || !(GeneratedPrefix(saName) <= s.name) || s.token.None? || s.token.value == "" || !Standing(s, now)
  }

  lemma OneSecret(s: TokenSecret, saName: string, token: string, now: int)
    ensures GeneratedPrefix(saName) == TokenPrefix(saName)
    ensures token != "" ==> (HoldsToken(s, saName, token) <==> Eligible(s, saName) && s.token.value == token)
    ensures Standing(s, now) <==> !Revoked(s, now)
    ensures Unusable(s, saName, now) <==> !(Eligible(s, saName) && !Revoked(s, now))
  {
    assert |"-token-"| == 7;
  }

  lemma AllSecrets(secrets: seq<TokenSecret>, saName: string, token: string, now: int)
    requires token != ""
    ensures forall i | 0 <= i < |secrets| :: HoldsToken(secrets[i], saName, token) <==> Eligible(secrets[i], saName) && secrets[i].token.value == token
    ensures forall i | 0 <= i < |secrets| :: Standing(secrets[i], now) <==> !Revoked(secrets[i], now)
    ensures forall i | 0 <= i < |secrets| :: Unusable(secrets[i], saName, now) <==> !(Eligible(secrets[i], saName) && !Revoked(secrets[i], now))
  {
    forall i | 0 <= i < |secrets|
      ensures HoldsToken(secrets[i], saName, token) <==> Eligible(secrets[i], saName) && secrets[i].token.value == token
      ensures Standing(secrets[i], now) <==> !Revoked(secrets[i], now)
      ensures Unusable(secrets[i], saName, now) <==> !(Eligible(secrets[i], saName) && !Revoked(secrets[i], now))
    {
      OneSecret(secrets[i], saName, token, now);
    }
  }

  lemma {:induction false} AcceptedHasHolder(secrets: seq<TokenSecret>, saName: string, token: string, now: int) returns (n: nat)
    requires LegacyValid(secrets, saName, token, now)
    ensures n < |secrets| && Eligible(secrets[n], saName) && secrets[n].token.value == token
  {
    n := 0;
    if !(Eligible(secrets[0], saName) && secrets[0].token.value == token) {
      n := AcceptedHasHolder(secrets[1..], saName, token, now);
      n := n + 1;
    }
  }

  /** The checker accepts a token exactly when a secret of the service account holds it and the first such secret stands. */
  lemma CheckerAcceptsExactly(secrets: seq<TokenSecret>, saName: string, token: string, now: int)
    requires token != ""
    ensures LegacyValid(secrets, saName, token, now) <==> FirstHolderStands(secrets, saName, token, now)
  {
    AllSecrets(secrets, saName, token, now);
    if n :| 0 <= n < |secrets| && Eligible(secrets[n], saName) && secrets[n].token.value == token {
      var i := FirstWithToken(secrets, saName, token, n);
      CheckerStops(secrets, saName, now, token, i);
    } else if LegacyValid(secrets, saName, token, now) {
      var n := AcceptedHasHolder(secrets, saName, token, now);
    }
  }

  lemma {:induction false} IssuerStops(secrets: seq<TokenSecret>, saName: string, now: int, j: nat)
    requires IsIssuing(secrets, saName, now, j)
    ensures LegacyToken(secrets, saName, now) == secrets[j].token
  {
    if j > 0 {
      assert forall k | 0 < k < |secrets| :: secrets[1..][k - 1] == secrets[k];
      IssuerStops(secrets[1..], saName, now, j - 1);
    }
  }

  lemma IssuerTakesExactly(secrets: seq<TokenSecret>, saName: string, token: string, now: int)
    requires token != ""
    ensures LegacyToken(secrets, saName, now) == Some(token) <==> FirstStandingHolds(secrets, saName, token, now)
  {
    AllSecrets(secrets, saName, token, now);
    if LegacyToken(secrets, saName, now) == Some(token) {
      var j := IssuedFrom(secrets, saName, now);
      assert HoldsToken(secrets[j], saName, token);
    }
    if FirstStandingHolds(secrets, saName, token, now) {
      var i :| 0 <= i < |secrets| && HoldsToken(secrets[i], saName, token) && Standing(secrets[i], now)
               && forall k | 0 <= k < i :: Unusable(secrets[k], saName, now);
      IssuerStops(secrets, saName, now, i);
    }
  }

  /**
   Where a new credential comes from: the first standing secret of the service account,
   without timestamps, before any request; a requested token only when there is none.
   */
  lemma NewCredentialExactly(secrets: seq<TokenSecret>, saName: string, now: int, issued: Result<Credential>)
    ensures var r := NewCredential(Ok(secrets), saName, now, issued);
            if forall k | 0 <= k < |secrets| :: Unusable(secrets[k], saName, now) then r == issued
            else r.Ok? && r.value == Credential(r.value.token, Absent, Absent)
                 && FirstStandingHolds(secrets, saName, r.value.token, now)
    ensures NewCredential(Err, saName, now, issued).Err?
  {
    AllSecrets(secrets, saName, "t", now);
    match LegacyToken(secrets, saName, now)
    case None =>
      if k :| 0 <= k < |secrets| && !Unusable(secrets[k], saName, now) {
        NoneTaken(secrets, saName, now, k);
      }
    case Some(t) =>
      var j := IssuedFrom(secrets, saName, now);
      assert t == secrets[j].token.value != "";
      IssuerTakesExactly(secrets, saName, t, now);
  }

  lemma {:induction false} NoneTaken(secrets: seq<TokenSecret>, saName: string, now: int, k: nat)
    requires LegacyToken(secrets, saName, now).None? && k < |secrets|
    ensures !(Eligible(secrets[k], saName) && !Revoked(secrets[k], now))
  {
    if k > 0 {
      NoneTaken(secrets[1..], saName, now, k - 1);
    }
  }

  /**
   With both stamps a token is in date exactly while more than a fifth of its lifetime is
   left, with an expiration alone while more than 72 days are; lifetimes are cut at the
   longest duration. One that never expires is always in date, an unreadable stamp never is.
   */
  lemma InDateExactly(token: string, creation: Stamp, expiration: Stamp, now: int)
    ensures InDate(Credential(token, creation, expiration), now) <==>
            && token != ""
            && match (creation, expiration)
               case (_, Absent) => true
               case (_, Garbled) => false
               case (Garbled, At(_)) => false
               case (Absent, At(e)) => e - now > 6_220_800_000_000_000
               case (At(c), At(e)) =>
                 if c <= e then 5 * (e - now) > (if e - c <= MaxDuration then e - c else MaxDuration)
                 else 5 * (e - now - 1) >= (if e - c >= MinDuration then e - c else MinDuration)
  {
  }
}
