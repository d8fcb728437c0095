/**
 * The in-memory store of sender profiles: named sets of sender settings
 * uploaded at run time, the profile currently in use, and the system
 * variant that selects which environment variables supply the sender when
 * no profile is in use.
 */
module EnvStore {
  import opened JsValues
  import opened JsStrings
  import opened Collections

  /** The process environment, read-only for the lifetime of the store. */
  type Env = map<string, string>

  function EnvVar(env: Env, key: string): Option<string> {
    if key in env then Some(env[key]) else None
  }

  /** Sender settings; every field may be absent. */
  datatype SenderEnv = SenderEnv(
    senderEmail: Option<string>,
    senderAppPassword: Option<string>,
    senderName: Option<string>,
    hostDomain: Option<string>,
    port: Option<string>,
    portAlt: Option<string>)

  /** The fixed set of system variants. */
  datatype Variant = Default | Icpep | Cisco | Cyberph | CyberphNoreply

  function VariantName(v: Variant): string {
    match v
    case Default => "default"
    case Icpep => "icpep"
    case Cisco => "cisco"
    case Cyberph => "cyberph"
    case CyberphNoreply => "cyberph-noreply"
  }

  /** `SYSTEM_VARIANTS.includes(s)`, answering with the variant so named. */
  function VariantNamed(s: string): (r: Option<Variant>)
    ensures forall v :: r == Some(v) <==> VariantName(v) == s
  {
    if s == "default" then Some(Default)
    else if s == "icpep" then Some(Icpep)
    else if s == "cisco" then Some(Cisco)
    else if s == "cyberph" then Some(Cyberph)
    else if s == "cyberph-noreply" then Some(CyberphNoreply)
    else None
  }

  /** The variants that send through their own SMTP host rather than the hosted provider. */
  predicate IsCyberph(v: Variant) {
    v == Cyberph || v == CyberphNoreply
  }

  /**
   * The variant a request asks for when its name is one of the system
   * variants, and the store's current variant otherwise (an absent or empty
   * name included).
   */
  function ResolveVariant(requested: Option<string>, current: Variant): (v: Variant)
    ensures requested.Some? && VariantNamed(requested.value).Some? ==> VariantName(v) == requested.value
    ensures (requested.None? || VariantNamed(requested.value).None?) ==> v == current
  {
    var name := if requested.Some? then requested.value else "";
    match VariantNamed(name)
    case Some(v) => v
    case None => current
  }

  /** The sender settings a variant reads from the environment. */
  function EnvForVariant(variant: Variant, env: Env): (r: SenderEnv)
    ensures !IsCyberph(variant) ==> r.hostDomain.None? && r.port.None? && r.portAlt.None?
  {
    match variant
    case Icpep =>
      SenderEnv(EnvVar(env, "ICPEP_SENDER_EMAIL"), EnvVar(env, "ICPEP_SENDER_PASSWORD"),
                EnvVar(env, "ICPEP_SENDER_NAME"), None, None, None)
    case Cisco =>
      SenderEnv(EnvVar(env, "CISCO_SENDER_EMAIL"), EnvVar(env, "CISCO_SENDER_PASSWORD"),
                EnvVar(env, "CISCO_SENDER_NAME"), None, None, None)
    case Cyberph | CyberphNoreply =>
      SenderEnv(EnvVar(env, "CYBERPH_SENDER_EMAIL"), EnvVar(env, "CYBERPH_SENDER_PASSWORD"),
                EnvVar(env, "CYBERPH_SENDER_NAME"), EnvVar(env, "CYBERPH_HOST_DOMAIN"),
                EnvVar(env, "CYBERPH_PORT"), EnvVar(env, "CYBERPH_PORT_ALT"))
    case Default =>
      SenderEnv(EnvVar(env, "SENDER_EMAIL"), EnvVar(env, "SENDER_APP_PASSWORD"),
                EnvVar(env, "SENDER_NAME"), None, None, None)
  }

  /** The environment variables each variant owns. */
  function VariantKeys(variant: Variant): set<string> {
    match variant
    case Default => {"SENDER_EMAIL", "SENDER_APP_PASSWORD", "SENDER_NAME"}
    case Icpep => {"ICPEP_SENDER_EMAIL", "ICPEP_SENDER_PASSWORD", "ICPEP_SENDER_NAME"}
    case Cisco => {"CISCO_SENDER_EMAIL", "CISCO_SENDER_PASSWORD", "CISCO_SENDER_NAME"}
    case Cyberph | CyberphNoreply =>
      {"CYBERPH_SENDER_EMAIL", "CYBERPH_SENDER_PASSWORD", "CYBERPH_SENDER_NAME",
       "CYBERPH_HOST_DOMAIN", "CYBERPH_PORT", "CYBERPH_PORT_ALT"}
  }

  /** A variant's settings depend only on the environment variables it owns. */
  lemma EnvForVariantReadsOwnKeys(variant: Variant, env1: Env, env2: Env)
    requires forall k :: k in VariantKeys(variant) ==> EnvVar(env1, k) == EnvVar(env2, k)
    ensures EnvForVariant(variant, env1) == EnvForVariant(variant, env2)
  {
    var keys := VariantKeys(variant);
    match variant
    case Default =>
      assert "SENDER_EMAIL" in keys && "SENDER_APP_PASSWORD" in keys && "SENDER_NAME" in keys;
    case Icpep =>
      assert "ICPEP_SENDER_EMAIL" in keys && "ICPEP_SENDER_PASSWORD" in keys && "ICPEP_SENDER_NAME" in keys;
    case Cisco =>
      assert "CISCO_SENDER_EMAIL" in keys && "CISCO_SENDER_PASSWORD" in keys && "CISCO_SENDER_NAME" in keys;
    case Cyberph | CyberphNoreply =>
      assert "CYBERPH_SENDER_EMAIL" in keys && "CYBERPH_SENDER_PASSWORD" in keys && "CYBERPH_SENDER_NAME" in keys;
      assert "CYBERPH_HOST_DOMAIN" in keys && "CYBERPH_PORT" in keys && "CYBERPH_PORT_ALT" in keys;
  }

  /** Variants with different prefixes own disjoint sets of environment variables. */
  lemma VariantKeysDisjoint(a: Variant, b: Variant)
    requires a != b && !(IsCyberph(a) && IsCyberph(b))
    ensures VariantKeys(a) !! VariantKeys(b)
  {
  }

  /**
   * The variant the store starts with: "cyberph" when the environment holds
   * all four of its sender, password, host and port settings, else "default".
   */
  function InitialVariant(env: Env): (v: Variant)
    ensures v == Cyberph <==>
      && Truthy(EnvVar(env, "CYBERPH_SENDER_EMAIL")) && Truthy(EnvVar(env, "CYBERPH_SENDER_PASSWORD"))
      && Truthy(EnvVar(env, "CYBERPH_HOST_DOMAIN")) && Truthy(EnvVar(env, "CYBERPH_PORT"))
    ensures v == Cyberph || v == Default
  {
    if && Truthy(EnvVar(env, "CYBERPH_SENDER_EMAIL")) && Truthy(EnvVar(env, "CYBERPH_SENDER_PASSWORD"))
       && Truthy(EnvVar(env, "CYBERPH_HOST_DOMAIN")) && Truthy(EnvVar(env, "CYBERPH_PORT"))
    then Cyberph
    else Default
  }

  /**
   * `order` lists every stored profile name exactly once, and each name is
   * non-empty and trimmed.
   */
  ghost predicate Listed(profiles: map<string, SenderEnv>, order: seq<string>) {
    && (forall i :: 0 <= i < |order| ==> order[i] in profiles)
    && (forall name :: name in profiles ==> name in order)
    && Distinct(order)
    && (forall name :: name in profiles ==> name != "" && Trimmed(name))
  }

  /**
   * Storing under a non-empty trimmed name keeps the listing exact when the
   * name is appended to it if, and only if, it was not stored before.
   */
  lemma InsertionKeepsListed(profiles: map<string, SenderEnv>, order: seq<string>, name: string, values: SenderEnv)
    requires Listed(profiles, order) && name != "" && Trimmed(name)
    ensures Listed(profiles[name := values], if name in profiles then order else order + [name])
  {
    if name !in profiles {
      assert name !in order;
      var grown := order + [name];
      forall i | 0 <= i < |grown| ensures grown[i] in profiles[name := values] {
        if i < |order| {
          assert grown[i] == order[i];
        }
      }
    }
  }

  /** Removing a name from the profiles and from their listing keeps the listing exact. */
  lemma RemovalKeepsListed(profiles: map<string, SenderEnv>, order: seq<string>, name: string)
    requires Listed(profiles, order)
    ensures Listed(profiles - {name}, Keep(order, n => n != name))
  {
    KeepDistinct(order, n => n != name);
    var kept := Keep(order, n => n != name);
    forall i | 0 <= i < |kept| ensures kept[i] in profiles - {name} {
      assert kept[i] in kept;
    }
  }

  class Store {
    /** The stored profiles by name. */
    var profiles: map<string, SenderEnv>
    /** The profile names in the order `Object.keys` lists them. */
    var order: seq<string>
    var activeProfile: Option<string>
    var systemVariant: Variant

    /**
     * The store's invariant: `order` lists each stored name once, every name
     * is non-empty and trimmed, and the active profile, when there is one,
     * is stored.
     */
    ghost predicate Valid()
      reads this
    {
      && Listed(profiles, order)
      && (activeProfile.Some? ==> activeProfile.value in profiles)
    }

    constructor (env: Env)
      ensures Valid()
      ensures profiles == map[] && order == [] && activeProfile == None
      ensures systemVariant == InitialVariant(env)
    {
      profiles := map[];
      order := [];
      activeProfile := None;
      systemVariant := InitialVariant(env);
    }

    /**
     * Stores a copy of `values` under the trimmed name and makes it the
     * active profile; a name that is blank once trimmed changes nothing.
     */
    method SetProfile(name: string, values: SenderEnv)
      requires Valid()
      modifies this
      ensures Valid()
      ensures systemVariant == old(systemVariant)
      ensures Trim(name) == "" ==>
        profiles == old(profiles) && order == old(order) && activeProfile == old(activeProfile)
      ensures Trim(name) != "" ==>
        && profiles == old(profiles)[Trim(name) := values]
        && activeProfile == Some(Trim(name))
        && order == if Trim(name) in old(profiles) then old(order) else old(order) + [Trim(name)]
    {
      var clean := Trim(name);
      if clean != "" {
        var listing := if clean in profiles then order else order + [clean];
        var stored := profiles[clean := values];
        InsertionKeepsListed(profiles, order, clean, values);
        assert Listed(stored, listing);
        profiles, order, activeProfile := stored, listing, Some(clean);
      }
    }

    /** `Object.keys(profiles)`: every stored name once. */
    function ListProfiles(): (names: seq<string>)
      reads this
      requires Valid()
      ensures forall name :: name in names <==> name in profiles
      ensures Distinct(names)
    {
      order
    }

    function GetProfile(name: string): (r: Option<SenderEnv>)
      reads this
      ensures r.Some? <==> name in profiles
      ensures r.Some? ==> r.value == profiles[name]
    {
      if name in profiles then Some(profiles[name]) else None
    }

    /**
     * No name, or a blank one, clears the active profile; a stored name
     * becomes active; any other name leaves the active profile as it was.
     */
    method SetActiveProfile(name: Option<string>)
      requires Valid()
      modifies this
      ensures Valid()
      ensures profiles == old(profiles) && order == old(order) && systemVariant == old(systemVariant)
      ensures name.None? || Trim(name.value) == "" ==> activeProfile == None
      ensures name.Some? && Trim(name.value) != "" ==>
        activeProfile == if name.value in profiles then name else old(activeProfile)
    {
      if name.None? || Trim(name.value) == "" {
        activeProfile := None;
        return;
      }
      if name.value in profiles {
        activeProfile := name;
      }
    }

    function GetActiveProfileName(): (r: Option<string>)
      reads this
      requires Valid()
      ensures r.Some? ==> r.value in profiles && r.value != ""
    {
      activeProfile
    }

    function GetSystemVariant(): (v: Variant)
      reads this
      ensures v == systemVariant
    {
      systemVariant
    }

    method SetSystemVariant(variant: Variant)
      requires Valid()
      modifies this
      ensures Valid()
      ensures GetSystemVariant() == variant
      ensures profiles == old(profiles) && order == old(order) && activeProfile == old(activeProfile)
    {
      systemVariant := variant;
    }

    /**
     * The settings in force: a copy of the active profile when there is one,
     * else the settings of the current system variant.
     */
    function GetActiveEnv(env: Env): (r: SenderEnv)
      reads this
      requires Valid()
      ensures activeProfile.Some? ==> r == profiles[activeProfile.value]
      ensures activeProfile.None? ==> r == EnvForVariant(systemVariant, env)
    {
      if activeProfile.Some? && activeProfile.value != "" && activeProfile.value in profiles
      then profiles[activeProfile.value]
      else EnvForVariant(systemVariant, env)
    }

    /**
     * The settings a batch or a status report uses for `variant`: the
     * settings in force for "default", the variant's own environment
     * variables otherwise.
     */
    function SettingsFor(env: Env, variant: Variant): (s: SenderEnv)
      reads this
      requires Valid()
      ensures variant == Default && activeProfile.Some? ==> s == profiles[activeProfile.value]
      ensures variant == Default && activeProfile.None? ==> s == EnvForVariant(systemVariant, env)
      ensures variant != Default ==> s == EnvForVariant(variant, env)
    {
      if variant == Default then GetActiveEnv(env) else EnvForVariant(variant, env)
    }

    /**
     * Removes a profile; when it was the active one, the first remaining
     * profile (in key order) becomes active, or none if nothing remains.
     */
    method ClearProfile(name: string)
      requires Valid()
      modifies this
      ensures Valid()
      ensures profiles == old(profiles) - {name}
      ensures order == Keep(old(order), n => n != name)
      ensures systemVariant == old(systemVariant)
      ensures activeProfile ==
        if old(activeProfile) == Some(name)
        then (if order == [] then None else Some(order[0]))
        else old(activeProfile)
    {
      RemovalKeepsListed(profiles, order, name);
      profiles := profiles - {name};
      order := Keep(order, n => n != name);
      if activeProfile == Some(name) {
        activeProfile := if order != [] && order[0] != "" then Some(order[0]) else None;
      }
    }

    method ClearAllProfiles()
      requires Valid()
      modifies this
      ensures Valid()
      ensures profiles == map[] && order == [] && activeProfile == None
      ensures systemVariant == old(systemVariant)
    {
      profiles := map[];
      order := [];
      activeProfile := None;
    }
  }
}
