/** Reading OBS credentials out of the data of a Kubernetes Secret. */
module Secrets {
  import opened Encoding
  import opened Text

  /** The values of a Secret as text. */
  type SecretData = map<string, string>

  const ACCESS_KEY := "accessKeyID"
  const SECRET_KEY := "secretAccessKey"
  const TOKEN := "securityToken"

  datatype Parsed = Usable(credentials: Credentials) | MissingKey(key: string)

  /** A missing data key reads as the empty string. */
  function Field(data: SecretData, key: string): string {
    if key in data then data[key] else ""
  }

  function CredentialsFromSecret(data: SecretData): Parsed {
    var access, secret := TrimSpace(Field(data, ACCESS_KEY)), TrimSpace(Field(data, SECRET_KEY));
    if access == "" then MissingKey(ACCESS_KEY)
    else if secret == "" then MissingKey(SECRET_KEY)
    else Usable(Credentials(Utf8(access), Utf8(secret), Utf8(TrimSpace(Field(data, TOKEN)))))
  }

  /**
   * Credentials are usable exactly when both keys hold more than white space; of two missing keys
   * the access key is the one that is reported.
   */
  lemma UsableExactly(data: SecretData)
    ensures CredentialsFromSecret(data).Usable? <==> !Blank(Field(data, ACCESS_KEY)) && !Blank(Field(data, SECRET_KEY))
    ensures CredentialsFromSecret(data) == MissingKey(ACCESS_KEY) <==> Blank(Field(data, ACCESS_KEY))
    ensures CredentialsFromSecret(data) == MissingKey(SECRET_KEY) <==>
              !Blank(Field(data, ACCESS_KEY)) && Blank(Field(data, SECRET_KEY))
  {
    TrimIsEmpty(Field(data, ACCESS_KEY));
    TrimIsEmpty(Field(data, SECRET_KEY));
    assert ACCESS_KEY[0] != SECRET_KEY[0];
  }

  /** b is a with white space added around every value. */
  predicate Padded(a: SecretData, b: SecretData, before: string, after: string) {
    && Blank(before) && Blank(after)
    && forall k | k in {ACCESS_KEY, SECRET_KEY, TOKEN} :: Field(b, k) == before + Field(a, k) + after
  }

  /** White space around the values changes neither the credentials nor, with them, the cache key. */
  lemma PaddingIsIgnored(a: SecretData, b: SecretData, before: string, after: string)
    requires Padded(a, b, before, after)
    ensures CredentialsFromSecret(a) == CredentialsFromSecret(b)
  {
    TrimOfPadded(before, Field(a, ACCESS_KEY), after);
    TrimOfPadded(before, Field(a, SECRET_KEY), after);
    TrimOfPadded(before, Field(a, TOKEN), after);
  }

  /** The value of a data key, or no text, is this core with white space around it. */
  ghost predicate Holds(data: SecretData, key: string, core: string) {
    Surrounds(if key in data then data[key] else "", core)
  }

  /** The credentials of a Secret: the three values without the white space around them, each in its place. */
  ghost predicate HoldsCredentials(data: SecretData, c: Credentials) {
    exists access, secret, token ::
      && Holds(data, "accessKeyID", access) && Holds(data, "secretAccessKey", secret)
      && Holds(data, "securityToken", token)
      && access != "" && secret != "" && c == Credentials(Utf8(access), Utf8(secret), Utf8(token))
  }

  /** What is read is what the Secret holds. */
  lemma CredentialsAreHeld(data: SecretData, access: string, secret: string, token: string)
    requires Holds(data, "accessKeyID", access) && Holds(data, "secretAccessKey", secret)
    requires Holds(data, "securityToken", token) && access != "" && secret != ""
    ensures CredentialsFromSecret(data) == Usable(Credentials(Utf8(access), Utf8(secret), Utf8(token)))
  {
    TrimMeans(Field(data, "accessKeyID"), access);
    TrimMeans(Field(data, "secretAccessKey"), secret);
    TrimMeans(Field(data, "securityToken"), token);
  }

  /** Credentials are read exactly if the Secret holds them. */
  lemma ReadsWhatIsHeld(data: SecretData, c: Credentials)
    ensures CredentialsFromSecret(data) == Usable(c) <==> HoldsCredentials(data, c)
  {
    var access, secret := TrimSpace(Field(data, "accessKeyID")), TrimSpace(Field(data, "secretAccessKey"));
    var token := TrimSpace(Field(data, "securityToken"));
    TrimMeans(Field(data, "accessKeyID"), access);
    TrimMeans(Field(data, "secretAccessKey"), secret);
    TrimMeans(Field(data, "securityToken"), token);
    if access != "" && secret != "" {
      CredentialsAreHeld(data, access, secret, token);
    }
    if HoldsCredentials(data, c) {
      var a, k, t :| && Holds(data, "accessKeyID", a) && Holds(data, "secretAccessKey", k)
                     && Holds(data, "securityToken", t)
                     && a != "" && k != "" && c == Credentials(Utf8(a), Utf8(k), Utf8(t));
      CredentialsAreHeld(data, a, k, t);
    }
  }
}
