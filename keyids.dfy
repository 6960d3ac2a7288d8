/**
 * Synthesis of keyIds: `generateKeyId` for OAuth logins and the
 * `manual-<slug>-<timestamp>` ids of manually added keys. Case mapping is
 * ASCII only.
 */
module KeyIds {
  import opened Wrappers
  import opened JsText
  import opened KeyStore

  /** `data.user_info?.email`. */
  function EmailOf(userInfo: Option<UserInfo>): Option<string> {
    if userInfo.Some? && "email" in userInfo.value then Some(userInfo.value["email"]) else None
  }

  /** The local part used in an OAuth keyId: the email before its first '@', or "user". */
  function EmailPart(email: Option<string>): string {
    if Truthy(email) then BeforeFirst(email.value, '@') else "user"
  }

  /** `generateKeyId(email, provider)` at clock value `now`. */
  function GenerateKeyId(email: Option<string>, provider: Option<string>, now: nat): string {
    Lower(OrElse(provider, "oauth") + "-" + EmailPart(email) + "-" + NatToString(now))
  }

  /** The keyId is the lowered provider, the lowered local part and the timestamp, joined by '-'. */
  lemma GenerateKeyIdParts(email: Option<string>, provider: Option<string>, now: nat)
    ensures GenerateKeyId(email, provider, now)
         == Lower(OrElse(provider, "oauth")) + "-" + Lower(EmailPart(email)) + "-" + NatToString(now)
    ensures Truthy(email) ==> '@' !in EmailPart(email)
  {
    var p, e, t := OrElse(provider, "oauth"), EmailPart(email), NatToString(now);
    LowerConcat(p + "-" + e + "-", t);
    LowerConcat(p + "-" + e, "-");
    LowerConcat(p + "-", e);
    LowerConcat(p, "-");
    LowerFixes("-");
    LowerFixes(t);
  }

  /** The creation timestamp can be read back from the segment after the keyId's last '-'. */
  lemma GenerateKeyIdTimestamp(email: Option<string>, provider: Option<string>, now: nat)
    ensures ParseNat(AfterLastDash(GenerateKeyId(email, provider, now))) == Some(now)
  {
    GenerateKeyIdParts(email, provider, now);
    AfterLastDashOfJoin(Lower(OrElse(provider, "oauth")) + "-" + Lower(EmailPart(email)), NatToString(now));
    NatToStringRoundTrip(now);
  }

  predicate IsLowerAlnum(c: char) {
    'a' <= c <= 'z' || IsDigit(c)
  }

  /** One character of `toLowerCase().replace(/[^a-z0-9]/g, '-')`. */
  function SlugChar(c: char): char {
    var l := LowerChar(c);
    if IsLowerAlnum(l) then l else '-'
  }

  /** `nickname.toLowerCase().replace(/[^a-z0-9]/g, '-')`. */
  function Slug(nickname: string): string {
    if nickname == [] then [] else [SlugChar(nickname[0])] + Slug(nickname[1..])
  }

  /**
   * A slug has the nickname's length; it keeps letters and digits (lowered)
   * and turns every other character into one '-'.
   */
  lemma {:induction false} SlugSpec(nickname: string)
    ensures |Slug(nickname)| == |nickname|
    ensures forall i :: 0 <= i < |nickname| ==>
      (IsLowerAlnum(LowerChar(nickname[i])) ==> Slug(nickname)[i] == LowerChar(nickname[i]))
      && (!IsLowerAlnum(LowerChar(nickname[i])) ==> Slug(nickname)[i] == '-')
  {
    if nickname != [] {
      SlugSpec(nickname[1..]);
    }
  }

  /** Slugging a slug changes nothing. */
  lemma {:induction false} SlugIdempotent(nickname: string)
    ensures Slug(Slug(nickname)) == Slug(nickname)
  {
    if nickname != [] {
      var s := Slug(nickname);
      assert s[1..] == Slug(nickname[1..]);
      SlugIdempotent(nickname[1..]);
    }
  }

  /** The keyId `addManualKey(apiKey, nickname)` returns at clock value `now`. */
  function ManualKeyId(nickname: string, now: nat): string {
    "manual-" + Slug(nickname) + "-" + NatToString(now)
  }

  /** The first two parts of a four-part concatenation are recovered by slicing. */
  lemma ConcatSlices(p: string, m: string, d: string, t: string)
    ensures (p + m + d + t)[..|p|] == p
    ensures (p + m + d + t)[|p|..|p| + |m|] == m
  {
  }

  /** A manual keyId starts with "manual-", carries the slug, and ends with the timestamp. */
  lemma ManualKeyIdShape(nickname: string, now: nat)
    ensures var id := ManualKeyId(nickname, now);
            id[..7] == "manual-"
            && id[7..7 + |Slug(nickname)|] == Slug(nickname)
            && ParseNat(AfterLastDash(id)) == Some(now)
  {
    var slug, stamp := Slug(nickname), NatToString(now);
    SlugSpec(nickname);
    ConcatSlices("manual-", slug, "-", stamp);
    AfterLastDashOfJoin("manual-" + slug, stamp);
    NatToStringRoundTrip(now);
  }

  /** The nickname "Prod" yields a keyId of the form manual-prod-<number>. */
  lemma ManualKeyIdProd(now: nat)
    ensures ManualKeyId("Prod", now) == "manual-prod-" + NatToString(now)
  {
    assert Slug("Prod") == "prod";
  }

  /**
   * A string that JavaScript would treat as an array index (enumerated before
   * all other own keys) consists of digits only.
   */
  predicate MayBeArrayIndex(s: string) {
    s != [] && AllDigits(s)
  }

  /** OAuth keyIds are never array indices and never name an Object.prototype member. */
  lemma GenerateKeyIdIsPlainKey(email: Option<string>, provider: Option<string>, now: nat)
    ensures !MayBeArrayIndex(GenerateKeyId(email, provider, now))
    ensures GenerateKeyId(email, provider, now) !in ObjectPrototypeNames
  {
    GenerateKeyIdParts(email, provider, now);
    var id := GenerateKeyId(email, provider, now);
    var i := |Lower(OrElse(provider, "oauth"))|;
    assert id[i] == '-';
    assert id[|id| - 1] == NatToString(now)[|NatToString(now)| - 1];
    NoPrototypeNameEndsInDigit(id);
  }

  /** Manual keyIds are never array indices and never name an Object.prototype member. */
  lemma ManualKeyIdIsPlainKey(nickname: string, now: nat)
    ensures !MayBeArrayIndex(ManualKeyId(nickname, now))
    ensures ManualKeyId(nickname, now) !in ObjectPrototypeNames
  {
    var id := ManualKeyId(nickname, now);
    assert id[6] == '-';
    assert id[|id| - 1] == NatToString(now)[|NatToString(now)| - 1];
    NoPrototypeNameEndsInDigit(id);
  }

  /** Every Object.prototype member name ends in a letter or '_'. */
  lemma NoPrototypeNameEndsInDigit(id: string)
    requires id != [] && IsDigit(id[|id| - 1])
    ensures id !in ObjectPrototypeNames
  {
  }
}
