/**
 * The API-key manager: the format check a key must pass, the check made
 * before a key is stored, where the key in use comes from, and how it is
 * masked for display. Reading the environment and the encrypted key file
 * is done by the caller: the values found there are parameters.
 */
module ApiKeys {
  import opened Wrappers
  import opened PyText

  const DefaultProvider: string := "dashscope"
  const KeyPrefix: string := "sk-"
  const MinDashScopeLength: nat := 20

  const EmptyKeyMessage: string := "API密钥不能为空"
  const PrefixMessage: string := "阿里云DashScope API密钥格式错误，应该以'sk-'开头"
  const ShortKeyMessage: string := "API密钥长度过短"
  const ValidKeyMessage: string := "API密钥格式正确"

  /** A key that is empty or whitespace only. */
  predicate Blank(key: string) {
    Strip(key) == ""
  }

  /** A key with the DashScope format: the `sk-` prefix and at least 20 characters. */
  predicate DashScopeFormat(key: string) {
    StartsWith(key, KeyPrefix) && |key| >= MinDashScopeLength
  }

  datatype Verdict = Verdict(valid: bool, message: string)

  /** `validate_api_key`. */
  function ValidateApiKey(key: string, provider: string): (r: Verdict)
    ensures r.valid <==> !Blank(key) && (provider == DefaultProvider ==> DashScopeFormat(key))
    ensures r.valid <==> r.message == ValidKeyMessage
    ensures Blank(key) ==> r.message == EmptyKeyMessage
  {
    if Strip(key) == "" then Verdict(false, EmptyKeyMessage)
    else if provider == DefaultProvider && !StartsWith(key, KeyPrefix) then Verdict(false, PrefixMessage)
    else if provider == DefaultProvider && |key| < MinDashScopeLength then Verdict(false, ShortKeyMessage)
    else Verdict(true, ValidKeyMessage)
  }

  /** What `save_api_key` does with a key: raises `ValueError` with a message, or stores a text. */
  datatype SaveOutcome = Rejected(error: string) | Stored(key: string)

  /**
   * The checks `save_api_key` makes before storing: the error it raises, or
   * the text it stores (the stripped key).
   */
  function SaveCheck(key: string, provider: string): (r: SaveOutcome)
    ensures r.Rejected? <==> Blank(key) || (provider == DefaultProvider && !StartsWith(key, KeyPrefix))
    ensures r.Stored? ==> r.key == Strip(key)
  {
    if Strip(key) == "" then Rejected(EmptyKeyMessage)
    else if provider == DefaultProvider && !StartsWith(key, KeyPrefix) then Rejected(PrefixMessage)
    else Stored(Strip(key))
  }

  /** The prefix of a key is kept by stripping, since it starts with no whitespace. */
  lemma StripKeepsPrefix(key: string)
    requires StartsWith(key, KeyPrefix)
    ensures StartsWith(Strip(key), KeyPrefix)
  {
    assert key[0] == 's' && key[1] == 'k' && key[2] == '-';
    assert LStrip(key) == key;
    var r := RStrip(key);
    assert !IsSpace(key[2]);
    assert r[..3] == key[..3];
  }

  /** Whatever passes the format check is accepted for storage, and stored with its prefix. */
  lemma ValidKeysAreSaved(key: string, provider: string)
    requires ValidateApiKey(key, provider).valid
    ensures SaveCheck(key, provider).Stored?
    ensures provider == DefaultProvider ==> StartsWith(SaveCheck(key, provider).key, KeyPrefix)
    ensures SaveCheck(key, provider).key != ""
  {
    if provider == DefaultProvider {
      StripKeepsPrefix(key);
    }
  }

  /** Storage is less strict than the format check: a short DashScope key is stored but reported invalid. */
  lemma ShortKeySavedButInvalid()
    ensures SaveCheck("sk-a", DefaultProvider) == Stored("sk-a")
    ensures !ValidateApiKey("sk-a", DefaultProvider).valid
  {
    StripNoSpace("sk-a");
    assert StartsWith("sk-a", KeyPrefix);
  }

  /**
   * `get_api_key`: the stripped environment variable when it holds more
   * than whitespace, else the decrypted stored key when it is non-empty.
   * `env` is `DASHSCOPE_API_KEY` (None when unset), `stored` the decrypted
   * entry of the provider (None when missing or undecryptable).
   */
  function ResolveKey(env: Option<string>, stored: Option<string>): (r: Option<string>)
    ensures r.Some? ==> r.value != ""
    ensures r.None? <==> (env.None? || Blank(env.value)) && (stored.None? || stored.value == "")
    ensures env.Some? && !Blank(env.value) ==> r == Some(Strip(env.value))
  {
    if env.Some? && Strip(env.value) != "" then Some(Strip(env.value))
    else if stored.Some? && stored.value != "" then stored
    else None
  }

  /** Without the environment variable, a stored key is what is used. */
  lemma SavedKeyIsUsed(key: string, provider: string)
    requires SaveCheck(key, provider).Stored?
    ensures ResolveKey(None, Some(SaveCheck(key, provider).key)) == Some(Strip(key))
  {
  }

  /** `api_key[:8] + "*" * (len(api_key) - 12) + api_key[-4:]` or `api_key[:4] + "*" * (len(api_key) - 4)`. */
  function Mask(key: string): string {
    if |key| > 12 then key[..8] + Repeat('*', |key| - 12) + key[|key| - 4..]
    else Take(key, 4) + Repeat('*', |key| - 4)
  }

  /**
   * A mask has the key's length and shows at most its first eight and last
   * four characters: a long key keeps those, a key of 5 to 12 characters
   * keeps its first four, every other position is `*`.
   */
  lemma MaskHides(key: string)
    requires |key| >= 4
    ensures |Mask(key)| == |key|
    ensures |key| > 12 ==> forall k :: 0 <= k < |key| ==>
      Mask(key)[k] == (if k < 8 || k >= |key| - 4 then key[k] else '*')
    ensures |key| <= 12 ==> forall k :: 0 <= k < |key| ==>
      Mask(key)[k] == (if k < 4 then key[k] else '*')
  {
    var m := Mask(key);
    if |key| > 12 {
      var stars := Repeat('*', |key| - 12);
      assert m == key[..8] + stars + key[|key| - 4..];
      forall k | 0 <= k < |key|
        ensures m[k] == (if k < 8 || k >= |key| - 4 then key[k] else '*')
      {
        if k < 8 {
          assert m[k] == key[..8][k];
        } else if k < |key| - 4 {
          assert m[k] == stars[k - 8];
        } else {
          assert m[k] == key[|key| - 4..][k - (|key| - 4)];
        }
      }
    } else {
      var stars := Repeat('*', |key| - 4);
      assert m == key[..4] + stars;
      forall k | 0 <= k < |key|
        ensures m[k] == (if k < 4 then key[k] else '*')
      {
        if k >= 4 {
          assert m[k] == stars[k - 4];
        }
      }
    }
  }

  /** A key of at most four characters is shown whole. */
  lemma ShortKeyShownWhole(key: string)
    requires |key| <= 4
    ensures Mask(key) == key
  {
  }

  datatype KeyStatus = KeyStatus(configured: bool, source: Option<string>, maskedKey: Option<string>)

  /**
   * `get_key_status` as written: the source is "environment" whenever the
   * variable is set to a non-empty value, even a whitespace-only one that
   * `get_api_key` skipped.
   */
  function KeyStatusAsWritten(env: Option<string>, stored: Option<string>): (r: KeyStatus)
    ensures r.configured <==> ResolveKey(env, stored).Some?
    ensures r.configured ==> r.maskedKey == Some(Mask(ResolveKey(env, stored).value))
    ensures r.configured ==> r.source == Some(if env.Some? && env.value != "" then "environment" else "encrypted_storage")
    ensures !r.configured ==> r.source == None && r.maskedKey == None
  {
    match ResolveKey(env, stored)
    case None => KeyStatus(false, None, None)
    case Some(key) =>
      KeyStatus(true, Some(if env.Some? && env.value != "" then "environment" else "encrypted_storage"), Some(Mask(key)))
  }

  /** A whitespace-only variable with a stored key: the stored key is used, yet the status names the environment. */
  lemma StatusNamesSkippedEnvironment()
    ensures ResolveKey(Some(" "), Some("sk-0123456789abcdefgh")) == Some("sk-0123456789abcdefgh")
    ensures KeyStatusAsWritten(Some(" "), Some("sk-0123456789abcdefgh")).source == Some("environment")
  {
    StripBlank(" ");
  }

  /** `get_key_status` with the source named after the key actually used. */
  function KeyStatusOf(env: Option<string>, stored: Option<string>): (r: KeyStatus)
    ensures r.configured <==> ResolveKey(env, stored).Some?
    ensures r.configured ==> r.maskedKey == Some(Mask(ResolveKey(env, stored).value))
    ensures !r.configured ==> r.source == None && r.maskedKey == None
  {
    match ResolveKey(env, stored)
    case None => KeyStatus(false, None, None)
    case Some(key) =>
      KeyStatus(true, Some(if env.Some? && !Blank(env.value) then "environment" else "encrypted_storage"), Some(Mask(key)))
  }

  /** The source is "environment" exactly when the key in use is the environment variable's. */
  lemma StatusSourceIsKeyOrigin(env: Option<string>, stored: Option<string>)
    requires ResolveKey(env, stored).Some?
    ensures KeyStatusOf(env, stored).source == Some("environment") <==> env.Some? && ResolveKey(env, stored) == Some(Strip(env.value)) && !Blank(env.value)
    ensures KeyStatusOf(env, stored).source == Some("encrypted_storage") <==> ResolveKey(env, stored) == stored && (env.None? || Blank(env.value))
  {
  }
}
