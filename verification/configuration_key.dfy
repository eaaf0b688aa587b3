// What the cache is keyed by: the non-empty credentials of a ProviderConfig and the fingerprint of its
// credential files, digested into the configuration hash.
module ConfigurationKey {
  import opened Collections
  import opened CacheState
  import opened CacheProtocol
  import opened CacheInvariants
  import CacheSafety

  type Settings = map<string, string>

  const CREDENTIAL_KEYS := {
    "tenancy_ocid", "user_ocid", "private_key", "private_key_password", "private_key_path", "fingerprint",
    "region", "auth", "config_file_profile", "workload_identity_token_path", "token_exchange_domain_url",
    "token_exchange_auth", "token_exchange_client_id", "token_exchange_client_secret",
    "token_exchange_requested_token_type", "token_exchange_subject_token_type", "token_exchange_resource_type",
    "token_exchange_rpst_exp", "token_exchange_public_key"
  }

  const FINGERPRINT_KEY := "__in_process_file_credential_fingerprint"

  // A missing key reads as the empty string.
  function Get(creds: Settings, key: string): string {
    if key in creds then creds[key] else ""
  }

  ghost function NonEmptyCredentials(creds: Settings): Settings {
    map key | key in CREDENTIAL_KEYS && Get(creds, key) != "" :: creds[key]
  }

  // Deletes the empty settings, whatever order the map is ranged over in.
  method DeleteEmpty(settings: Settings) returns (config: Settings)
    ensures config == map key | key in settings && settings[key] != "" :: settings[key]
  {
    config := settings;
    var unseen := settings.Keys;
    while unseen != {}
      invariant unseen <= config.Keys <= settings.Keys
      invariant forall key | key in config :: config[key] == settings[key]
      invariant forall key | key in settings && key !in unseen :: key in config <==> settings[key] != ""
      decreases unseen
    {
      var key :| key in unseen;
      if config[key] == "" {
        config := config - {key};
      }
      unseen := unseen - {key};
    }
  }

  // Copies the known credentials and drops the empty ones.
  method ProviderConfigurationFromCredentials(creds: Settings) returns (config: Settings)
    ensures config == NonEmptyCredentials(creds)
  {
    config := DeleteEmpty(map key | key in CREDENTIAL_KEYS :: Get(creds, key));
  }

  // Configurations are equal exactly when every credential is, counting missing and empty as the same.
  lemma SameConfigurationMeansSameCredentials(a: Settings, b: Settings)
    ensures NonEmptyCredentials(a) == NonEmptyCredentials(b)
            <==> forall key | key in CREDENTIAL_KEYS :: Get(a, key) == Get(b, key)
  {
    var x, y := NonEmptyCredentials(a), NonEmptyCredentials(b);
    if x == y {
      forall key | key in CREDENTIAL_KEYS
        ensures Get(a, key) == Get(b, key)
      {
        assert key in x <==> key in y;
        if key in x { assert x[key] == y[key]; }
      }
    }
    if forall key | key in CREDENTIAL_KEYS :: Get(a, key) == Get(b, key) {
      assert x.Keys == y.Keys;
      assert forall key | key in x :: x[key] == Get(a, key) && y[key] == Get(b, key);
    }
  }

  // Both have the same text under the key, where none is the same as an empty one.
  ghost predicate Same(a: Settings, b: Settings, key: string) {
    if key in a && a[key] != "" then key in b && b[key] == a[key] else key in b ==> b[key] == ""
  }

  lemma SameConfigurationMeansSame(a: Settings, b: Settings)
    ensures NonEmptyCredentials(a) == NonEmptyCredentials(b) <==> forall key | key in CREDENTIAL_KEYS :: Same(a, b, key)
  {
    SameConfigurationMeansSameCredentials(a, b);
    assert forall key :: Same(a, b, key) <==> Get(a, key) == Get(b, key);
  }

  // Key by key: these credentials make a configuration, and nothing else does.
  lemma ConfigurationIsMadeOf(a: Settings, b: Settings)
    ensures NonEmptyCredentials(a) == NonEmptyCredentials(b) <==> forall key | key in {
      "tenancy_ocid", "user_ocid", "private_key", "private_key_password", "private_key_path", "fingerprint",
      "region", "auth", "config_file_profile", "workload_identity_token_path", "token_exchange_domain_url",
      "token_exchange_auth", "token_exchange_client_id", "token_exchange_client_secret",
      "token_exchange_requested_token_type", "token_exchange_subject_token_type",
      "token_exchange_resource_type", "token_exchange_rpst_exp", "token_exchange_public_key" } ::
      Same(a, b, key)
  {
    SameConfigurationMeansSame(a, b);
  }

  // A configuration map with identity: the caller keeps it and passes it on to the provider.
  class ConfigMap {
    var settings: Settings

    constructor (settings: Settings)
      ensures this.settings == settings
    {
      this.settings := settings;
    }
  }

  ghost function SettingsOf(cfg: ConfigMap?): Settings
    reads cfg
  {
    if cfg == null then map[] else cfg.settings
  }

  // What is digested: the configuration with the file fingerprint beside it.
  ghost function HashInput(cfg: Settings, fingerprint: string): Settings {
    cfg[FINGERPRINT_KEY := fingerprint]
  }

  // Hashes a clone of the configuration with the fingerprint added.  The configuration itself, possibly
  // nil, is not written; a failing fingerprint is reported instead.
  method InProcessProviderConfigurationHash(cfg: ConfigMap?, fingerprint: Option<string>, digest: Settings -> Hash)
    returns (hash: Option<Hash>)
    ensures hash == match fingerprint
                    case Some(text) => Some(digest(HashInput(SettingsOf(cfg), text)))
                    case None => None
    ensures fingerprint.Some? ==>
      hash == Some(digest(SettingsOf(cfg)["__in_process_file_credential_fingerprint" := fingerprint.value]))
  {
    if fingerprint.None? {
      return None;
    }
    var hashInput: ConfigMap;
    if cfg == null {
      hashInput := new ConfigMap(map[]);
    } else {
      hashInput := new ConfigMap(cfg.settings);
    }
    hashInput.settings := hashInput.settings[FINGERPRINT_KEY := fingerprint.value];
    hash := Some(digest(hashInput.settings));
  }

  // The fingerprint cannot clobber a credential, so the digested map determines all of its ingredients.
  lemma HashInputIsFaithful(a: Settings, b: Settings, f: string, g: string)
    requires HashInput(NonEmptyCredentials(a), f) == HashInput(NonEmptyCredentials(b), g)
    ensures f == g
    ensures forall key | key in CREDENTIAL_KEYS :: Get(a, key) == Get(b, key)
  {
    var x, y := NonEmptyCredentials(a), NonEmptyCredentials(b);
    assert HashInput(x, f)[FINGERPRINT_KEY] == f && HashInput(y, g)[FINGERPRINT_KEY] == g;
    FingerprintKeyIsNew();
    assert HashInput(x, f) - {FINGERPRINT_KEY} == x;
    assert HashInput(y, g) - {FINGERPRINT_KEY} == y;
    SameConfigurationMeansSameCredentials(a, b);
  }

  lemma FingerprintKeyIsNew()
    ensures FINGERPRINT_KEY !in CREDENTIAL_KEYS
  {
  }

  // Distinct successful initialisations make distinct provider instances.
  ghost predicate FreshInstances(s: State) {
    forall k, m | 0 <= k < |s.calls| && 0 <= m < |s.calls| && s.calls[k].finished && s.calls[m].finished
                  && s.calls[k].outcome.err.None? && s.calls[k].outcome == s.calls[m].outcome :: k == m
  }

  ghost predicate Injective(digest: Settings -> Hash) {
    forall a, b :: digest(a) == digest(b) ==> a == b
  }

  // End to end: two requests that were answered with the same provider instance are for the same
  // ProviderConfig, agree on every credential, and saw the same credential files.
  lemma SharedMetaMeansSameConfiguration(r: Run, n: nat, i: CallerId, j: CallerId, digest: Settings -> Hash,
                                         credsI: Settings, filesI: string, credsJ: Settings, filesJ: string)
    requires IsRun(r) && n < |r.states| && FreshInstances(r.states[n]) && Injective(digest)
    requires i < |r.states[n].callers| && j < |r.states[n].callers|
    requires var a, b := r.states[n].callers[i], r.states[n].callers[j];
             && a.hash == digest(HashInput(NonEmptyCredentials(credsI), filesI))
             && b.hash == digest(HashInput(NonEmptyCredentials(credsJ), filesJ))
             && a.pc.Returned? && a.pc.err.None? && b.pc.Returned? && b.pc.err.None? && a.pc.meta == b.pc.meta
    ensures r.states[n].callers[i].uid == r.states[n].callers[j].uid
    ensures filesI == filesJ
    ensures forall key | key in CREDENTIAL_KEYS :: Get(credsI, key) == Get(credsJ, key)
  {
    var s := r.states[n];
    var a, b := s.callers[i], s.callers[j];
    CacheSafety.SuccessIsCoherent(r, n, i);
    CacheSafety.SuccessIsCoherent(r, n, j);
    var k: CallId :| k < |s.calls| && MadeBy(s.calls[k], a.uid, a.hash, a.pc.meta);
    var m: CallId :| m < |s.calls| && MadeBy(s.calls[m], b.uid, b.hash, b.pc.meta);
    assert k == m;
    HashInputIsFaithful(credsI, credsJ, filesI, filesJ);
  }
}
