/**
 * The server actions over the sender settings: parsing `.env` text,
 * uploading it as a profile, reporting which sender settings are present,
 * and switching the system variant.
 */
module EnvActions {
  import opened JsValues
  import opened JsStrings
  import opened Collections
  import opened EnvStore

  /** The three sender settings an upload keeps and a status report checks. */
  datatype Key = SenderEmail | SenderAppPassword | SenderName

  /** The list both `KEYS` and `REQUIRED` hold, in their order. */
  const Keys: seq<Key> := [SenderEmail, SenderAppPassword, SenderName]

  function KeyName(k: Key): string {
    match k
    case SenderEmail => "SENDER_EMAIL"
    case SenderAppPassword => "SENDER_APP_PASSWORD"
    case SenderName => "SENDER_NAME"
  }

  /** The position of a key in `Keys`. */
  function Rank(k: Key): (n: nat)
    ensures n < |Keys| && Keys[n] == k
  {
    match k
    case SenderEmail => 0
    case SenderAppPassword => 1
    case SenderName => 2
  }

  /** A list of keys that follows the order of `Keys`. */
  predicate InKeyOrder(ks: seq<Key>) {
    forall i, j :: 0 <= i < j < |ks| ==> Rank(ks[i]) < Rank(ks[j])
  }

  /** `Keys` lists every key. */
  lemma KeysComplete()
    ensures forall k :: k in Keys
  {
    forall k: Key ensures k in Keys {
      assert Keys[Rank(k)] == k;
    }
  }

  /** A set holding the three keys holds every key. */
  lemma EveryKeyIn(ks: set<Key>)
    requires SenderEmail in ks && SenderAppPassword in ks && SenderName in ks
    ensures forall k :: k in ks
  {
    forall k: Key ensures k in ks {
      match k
      case SenderEmail =>
      case SenderAppPassword =>
      case SenderName =>
    }
  }

  function FieldOf(e: SenderEnv, k: Key): Option<string> {
    match k
    case SenderEmail => e.senderEmail
    case SenderAppPassword => e.senderAppPassword
    case SenderName => e.senderName
  }

  /** The keys of `Keys` for which `p` holds, as `Keys.filter(p)` lists them. */
  lemma KeysFilteredInOrder(p: Key -> bool)
    ensures InKeyOrder(Keep(Keys, p))
  {
    var idx := KeepPositions(Keys, p);
    forall i | 0 <= i < |idx| ensures Rank(Keep(Keys, p)[i]) == idx[i] {
      assert Keep(Keys, p)[i] == Keys[idx[i]];
    }
  }

  // ---------------------------------------------------------------------
  // parseEnv
  // ---------------------------------------------------------------------

  /**
   * What one line of `.env` text contributes: nothing when it is blank, a
   * comment, has no `=`, or has an empty key; otherwise the trimmed text
   * before the first `=` as key and the trimmed rest (which may hold more
   * `=`) as value.
   */
  function ParseLine(line: string): (r: Option<(string, string)>)
    ensures Trim(line) == "" || Trim(line)[0] == '#' || '=' !in Trim(line) ==> r.None?
    ensures r.Some? ==> r.value.0 != "" && Trimmed(r.value.0) && '=' !in r.value.0 && Trimmed(r.value.1)
  {
    var trimmed := Trim(line);
    if trimmed == "" || trimmed[0] == '#' then None
    else
      var eq := IndexOf(trimmed, '=');
      if eq == -1 then None
      else
        var key := Trim(trimmed[..eq]);
        var value := Trim(trimmed[eq + 1..]);
        if key == "" then None
        else
          assert '=' !in key by {
            if '=' in key { TrimKeeps(trimmed[..eq], '='); }
          }
          Some((key, value))
  }

  /** A `key=value` line reads back as that key and value. */
  lemma ParseLineRoundTrip(key: string, value: string)
    requires key != "" && Trimmed(key) && '=' !in key && key[0] != '#'
    requires Trimmed(value)
    ensures ParseLine(key + "=" + value) == Some((key, value))
  {
    KeyValueLine(key, value);
    TrimOfTrimmed(key);
    TrimOfTrimmed(value);
  }

  /** The shape of a `key=value` line: already trimmed, with its first `=` right after the key. */
  lemma KeyValueLine(key: string, value: string)
    requires key != "" && Trimmed(key) && '=' !in key
    requires Trimmed(value)
    ensures var line := key + "=" + value;
      && Trim(line) == line && line[0] == key[0]
      && IndexOf(line, '=') == |key|
      && line[..|key|] == key && line[|key| + 1..] == value
  {
    var line := key + "=" + value;
    assert Trimmed(line) by {
      assert line[0] == key[0];
      assert line[|line| - 1] == if value == [] then '=' else value[|value| - 1];
    }
    TrimOfTrimmed(line);
    SplitAtEquals(key, value);
  }

  /**
   * White space around the line, and around the `=`, does not change what it
   * reads as: the key and value come back trimmed.
   */
  lemma ParseLinePadded(p: string, q: string, key: string, value: string)
    requires forall i :: 0 <= i < |p| ==> IsSpace(p[i])
    requires forall i :: 0 <= i < |q| ==> IsSpace(q[i])
    requires key != "" && Trimmed(key) && '=' !in key && key[0] != '#'
    requires value != "" && Trimmed(value)
    ensures ParseLine(p + key + q + "=" + q + value + p) == Some((key, value))
  {
    var left, right := key + q, q + value;
    var line := p + key + q + "=" + q + value + p;
    Regroup(p, key, q, value);
    PaddedLine(p, left, right, key[0], value[|value| - 1]);
    SpacedKey(key, q);
    SplitAtEquals(left, right);
    SpacedParts(q, key, value);
    ParseTrimmedLine(line, left + "=" + right, |left|, key, value);
  }

  /** The padded line grouped as its outer white space around `key + q`, `=` and `q + value`. */
  lemma Regroup(p: string, key: string, q: string, value: string)
    ensures p + key + q + "=" + q + value + p == p + ((key + q) + "=" + (q + value)) + p
  {
  }

  /** What `ParseLine` makes of a line from the pieces it cuts the line into. */
  lemma ParseTrimmedLine(line: string, trimmed: string, eq: nat, key: string, value: string)
    requires Trim(line) == trimmed && trimmed != "" && trimmed[0] != '#'
    requires IndexOf(trimmed, '=') == eq
    requires Trim(trimmed[..eq]) == key && key != "" && Trim(trimmed[eq + 1..]) == value
    ensures ParseLine(line) == Some((key, value))
  {
  }

  /** White space next to the `=` is trimmed away from both the key and the value. */
  lemma SpacedParts(q: string, key: string, value: string)
    requires forall i :: 0 <= i < |q| ==> IsSpace(q[i])
    requires key != "" && Trimmed(key)
    requires value != "" && Trimmed(value)
    ensures Trim(key + q) == key && Trim(q + value) == value
  {
    TrimPadded([], key, q);
    TrimPadded(q, value, []);
    assert [] + key + q == key + q && q + value + [] == q + value;
  }

  /** Trimming a padded line whose inner part starts and ends with other characters than white space. */
  lemma PaddedLine(p: string, left: string, right: string, first: char, last: char)
    requires forall i :: 0 <= i < |p| ==> IsSpace(p[i])
    requires left != [] && left[0] == first && !IsSpace(first)
    requires right != [] && right[|right| - 1] == last && !IsSpace(last)
    ensures Trim(p + (left + "=" + right) + p) == left + "=" + right
  {
    var inner := left + "=" + right;
    assert inner[0] == first && inner[|inner| - 1] == last;
    TrimPadded(p, inner, p);
  }

  /** A key followed by white space still holds no `=`. */
  lemma SpacedKey(key: string, q: string)
    requires forall i :: 0 <= i < |q| ==> IsSpace(q[i])
    requires '=' !in key
    ensures '=' !in key + q
  {
    assert !IsSpace('=');
  }

  /** The first `=` of `left + "=" + right` is the one after `left`, when `left` has none. */
  lemma SplitAtEquals(left: string, right: string)
    requires '=' !in left
    ensures var line := left + "=" + right;
      && IndexOf(line, '=') == |left|
      && line[..|left|] == left && line[|left| + 1..] == right
  {
    var line := left + "=" + right;
    assert line == left + ['='] + right;
    IndexOfAfter(left, '=', right);
    assert line[..|left|] == left;
    assert line[|left| + 1..] == right;
  }

  /** What each line contributes, line by line. */
  function ParseLines(lines: seq<string>): (bs: seq<Option<(string, string)>>)
    ensures |bs| == |lines|
    ensures forall i :: 0 <= i < |lines| ==> bs[i] == ParseLine(lines[i])
  {
    seq(|lines|, i requires 0 <= i < |lines| => ParseLine(lines[i]))
  }

  predicate Defines(b: Option<(string, string)>, key: string) {
    b.Some? && b.value.0 == key
  }

  /** The value the last binding for `key` gives it, if there is one. */
  function LastValue(bs: seq<Option<(string, string)>>, key: string): Option<string> {
    if bs == [] then None
    else if Defines(bs[|bs| - 1], key) then Some(bs[|bs| - 1].value.1)
    else LastValue(bs[..|bs| - 1], key)
  }

  /** `out` holds exactly the keys the bindings give a value, each with that value. */
  ghost predicate Holds(out: map<string, string>, bs: seq<Option<(string, string)>>) {
    && (forall key :: key in out <==> LastValue(bs, key).Some?)
    && (forall key :: key in out ==> out[key] == LastValue(bs, key).value)
  }

  /** Applying one more binding to what the earlier ones give yields what all of them give. */
  lemma HoldsStep(out: map<string, string>, bs: seq<Option<(string, string)>>, i: nat)
    requires i < |bs| && Holds(out, bs[..i])
    ensures Holds(if bs[i].Some? then out[bs[i].value.0 := bs[i].value.1] else out, bs[..i + 1])
  {
    assert bs[..i + 1][..i] == bs[..i];
  }

  /** When a key has a value, some line binds it so, and no later line binds it again. */
  lemma {:induction false} LastValueComesFromLastDefinition(bs: seq<Option<(string, string)>>, key: string) returns (i: nat)
    requires LastValue(bs, key).Some?
    ensures i < |bs| && bs[i] == Some((key, LastValue(bs, key).value))
    ensures forall j :: i < j < |bs| ==> !Defines(bs[j], key)
  {
    var n := |bs| - 1;
    if Defines(bs[n], key) {
      i := n;
    } else {
      i := LastValueComesFromLastDefinition(bs[..n], key);
      assert forall j :: i < j < n ==> bs[..n][j] == bs[j];
    }
  }

  /** The last line that binds a key decides its value. */
  lemma {:induction false} LastDefinitionWins(bs: seq<Option<(string, string)>>, key: string, i: nat, value: string)
    requires i < |bs| && bs[i] == Some((key, value))
    requires forall j :: i < j < |bs| ==> !Defines(bs[j], key)
    ensures LastValue(bs, key) == Some(value)
  {
    var n := |bs| - 1;
    if i < n {
      assert forall j :: i < j < n ==> bs[..n][j] == bs[j];
      LastDefinitionWins(bs[..n], key, i, value);
    }
  }

  /** A key no line binds has no value. */
  lemma {:induction false} UnboundKeyHasNoValue(bs: seq<Option<(string, string)>>, key: string)
    requires forall j :: 0 <= j < |bs| ==> !Defines(bs[j], key)
    ensures LastValue(bs, key).None?
  {
    if bs != [] {
      var n := |bs| - 1;
      assert forall j :: 0 <= j < n ==> bs[..n][j] == bs[j];
      UnboundKeyHasNoValue(bs[..n], key);
    }
  }

  /**
   * `parseEnv(text)`: walks the lines in order, so every key some line
   * defines is present, with the value of the last line that defines it.
   */
  method ParseEnv(text: string) returns (out: map<string, string>)
    ensures forall key :: key in out <==> LastValue(ParseLines(SplitLines(text)), key).Some?
    ensures forall key :: key in out ==> out[key] == LastValue(ParseLines(SplitLines(text)), key).value
  {
    var lines := SplitLines(text);
    ghost var bs := ParseLines(lines);
    out := map[];
    for i := 0 to |lines|
      invariant Holds(out, bs[..i])
    {
      var parsed := ParseLine(lines[i]);
      assert parsed == bs[i];
      HoldsStep(out, bs, i);
      if parsed.Some? {
        out := out[parsed.value.0 := parsed.value.1];
      }
    }
    assert bs[..|lines|] == bs;
  }

  /** Every key the parser yields is non-empty, trimmed and free of `=`, and every value is trimmed. */
  lemma ParsedKeysWellFormed(lines: seq<string>, key: string)
    ensures LastValue(ParseLines(lines), key).Some? ==>
      key != "" && Trimmed(key) && '=' !in key && Trimmed(LastValue(ParseLines(lines), key).value)
  {
    if LastValue(ParseLines(lines), key).Some? {
      var i := LastValueComesFromLastDefinition(ParseLines(lines), key);
      assert ParseLine(lines[i]).Some?;
    }
  }

  // ---------------------------------------------------------------------
  // uploadEnvAction
  // ---------------------------------------------------------------------

  /**
   * The known settings of the parsed text that are non-empty, and the known
   * keys left without a value, in `Keys` order.
   */
  method ExtractKnown(parsed: map<string, string>) returns (stored: map<Key, string>, missing: seq<Key>)
    ensures forall k :: k in stored <==> KeyName(k) in parsed && parsed[KeyName(k)] != ""
    ensures forall k :: k in stored ==> stored[k] == parsed[KeyName(k)]
    ensures forall k :: k in missing <==> k !in stored
    ensures InKeyOrder(missing)
  {
    stored := map[];
    for i := 0 to |Keys|
      invariant forall k :: k in stored <==> Rank(k) < i && KeyName(k) in parsed && parsed[KeyName(k)] != ""
      invariant forall k :: k in stored ==> stored[k] == parsed[KeyName(k)]
    {
      var k := Keys[i];
      assert Rank(k) == i;
      if KeyName(k) in parsed && parsed[KeyName(k)] != "" {
        stored := stored[k := parsed[KeyName(k)]];
      }
    }
    missing := Keep(Keys, k => k !in stored);
    KeysFilteredInOrder(k => k !in stored);
  }

  /** The profile an upload stores: the kept settings, nothing else. */
  function StoredEnv(stored: map<Key, string>): (e: SenderEnv)
    ensures forall k :: FieldOf(e, k) == (if k in stored then Some(stored[k]) else None)
    ensures forall k :: Truthy(FieldOf(e, k)) <==> k in stored && stored[k] != ""
    ensures e.hostDomain.None? && e.port.None? && e.portAlt.None?
  {
    SenderEnv(
      if SenderEmail in stored then Some(stored[SenderEmail]) else None,
      if SenderAppPassword in stored then Some(stored[SenderAppPassword]) else None,
      if SenderName in stored then Some(stored[SenderName]) else None,
      None, None, None)
  }

  /**
   * The profile name derived from an uploaded file's name: the name without
   * its last extension when the last dot is not the first character, the
   * whole name otherwise, and "custom" when the name is empty.
   */
  function ProfileFromFileName(fileName: string): (r: string)
    ensures r != ""
    ensures fileName == "" ==> r == "custom"
    ensures LastIndexOf(fileName, '.') <= 0 && fileName != "" ==> r == fileName
    ensures LastIndexOf(fileName, '.') > 0 ==>
      && 0 < |r| < |fileName| && fileName[..|r|] == r
      && fileName[|r|] == '.' && '.' !in fileName[|r| + 1..]
  {
    var dot := LastIndexOf(fileName, '.');
    if dot > 0 then fileName[..dot]
    else if fileName != "" then fileName
    else "custom"
  }

  /** Stripping the extension of `base.ext` gives back `base`. */
  lemma ProfileFromFileNameStripsExtension(base: string, ext: string)
    requires base != "" && '.' !in ext
    ensures ProfileFromFileName(base + "." + ext) == base
  {
    var name := base + "." + ext;
    assert name[|base|] == '.';
    assert name[|base| + 1..] == ext;
    assert name[..|base|] == base;
  }

  datatype FileUpload = FileUpload(name: string, text: string)

  /**
   * The two shapes of upload input: text with an optional profile name, or
   * a form with an optional profile field and an optional file.
   */
  datatype UploadInput =
    | TextUpload(envText: Option<string>, profile: Option<string>)
    | FormUpload(profileField: Option<string>, file: Option<FileUpload>)

  function UploadText(input: UploadInput): (text: string)
    ensures input.TextUpload? && input.envText.Some? ==> text == input.envText.value
    ensures input.FormUpload? && input.file.Some? ==> text == input.file.value.text
    ensures (input.TextUpload? && input.envText.None?) || (input.FormUpload? && input.file.None?) ==> text == ""
  {
    match input
    case TextUpload(text, _) => if text.Some? then text.value else ""
    case FormUpload(_, file) => if file.Some? then file.value.text else ""
  }

  /**
   * The profile name an upload uses: the one given, or "custom" for text
   * input, or the one derived from the file name for a form with a file.
   */
  function UploadProfile(input: UploadInput): (name: string)
    ensures input.TextUpload? ==> name != ""
    ensures input.FormUpload? && input.file.Some? ==> name != ""
    ensures input.TextUpload? && input.profile.Some? && input.profile.value != "" ==> name == input.profile.value
    ensures input.TextUpload? && (input.profile.None? || input.profile.value == "") ==> name == "custom"
    ensures input.FormUpload? && input.profileField.Some? && input.profileField.value != "" ==>
      name == input.profileField.value
    ensures input.FormUpload? && (input.profileField.None? || input.profileField.value == "") ==>
      name == (if input.file.Some? then ProfileFromFileName(input.file.value.name) else "")
  {
    match input
    case TextUpload(_, profile) =>
      var given := if profile.Some? then profile.value else "";
      if given == "" then "custom" else given
    case FormUpload(profileField, file) =>
      var given := if profileField.Some? then profileField.value else "";
      if given == "" && file.Some? then ProfileFromFileName(file.value.name) else given
  }

  datatype UploadResult =
    | UploadRejected(error: string)
    | Uploaded(ok: bool, stored: map<Key, string>, missing: seq<Key>, profile: string)

  /**
   * `uploadEnvAction`: blank text is refused and stores nothing; otherwise
   * the known non-empty settings of the text are stored as a profile (made
   * active), and the result lists what was kept and what is missing.
   */
  method UploadEnv(store: Store, input: UploadInput) returns (r: UploadResult)
    requires store.Valid()
    modifies store
    ensures store.Valid()
    ensures store.systemVariant == old(store.systemVariant)
    ensures Trim(UploadText(input)) == "" ==>
      && r == UploadRejected("No env content provided")
      && store.profiles == old(store.profiles) && store.order == old(store.order)
      && store.activeProfile == old(store.activeProfile)
    ensures Trim(UploadText(input)) != "" ==>
      var lines := ParseLines(SplitLines(UploadText(input)));
      && r.Uploaded?
      && r.profile == UploadProfile(input)
      && (forall k :: k in r.stored <==> Truthy(LastValue(lines, KeyName(k))))
      && (forall k :: k in r.stored ==> r.stored[k] == LastValue(lines, KeyName(k)).value)
      && (forall k :: k in r.missing <==> k !in r.stored)
      && InKeyOrder(r.missing)
      && r.ok == (r.missing == [])
    ensures r.Uploaded? && Trim(r.profile) != "" ==>
      && store.profiles == old(store.profiles)[Trim(r.profile) := StoredEnv(r.stored)]
      && store.activeProfile == Some(Trim(r.profile))
      && store.order == if Trim(r.profile) in old(store.profiles) then old(store.order)
                        else old(store.order) + [Trim(r.profile)]
    ensures r.Uploaded? && Trim(r.profile) == "" ==>
      && store.profiles == old(store.profiles) && store.order == old(store.order)
      && store.activeProfile == old(store.activeProfile)
  {
    var envText := UploadText(input);
    var profileName := UploadProfile(input);
    if Trim(envText) == "" {
      return UploadRejected("No env content provided");
    }
    var parsed := ParseEnv(envText);
    var stored, missing := ExtractKnown(parsed);
    store.SetProfile(profileName, StoredEnv(stored));
    r := Uploaded(missing == [], stored, missing, profileName);
  }

  // ---------------------------------------------------------------------
  // getEnvStatusAction
  // ---------------------------------------------------------------------

  /** Where a reported setting comes from. */
  datatype Source = FromProfile | FromEnv | Missing

  datatype EnvStatus = EnvStatus(
    ok: bool,
    present: map<Key, bool>,
    missing: seq<Key>,
    source: map<Key, Source>,
    activeProfile: Option<string>,
    profiles: seq<string>,
    systemVariant: Variant)

  /**
   * The report on one set of settings: which keys are set, the unset ones in
   * `Keys` order, whether all are set, and where each set one comes from.
   */
  function Report(settings: SenderEnv, usingProfile: bool): (s: EnvStatus)
    ensures forall k :: k in s.present && k in s.source
    ensures forall k :: s.present[k] <==> Truthy(FieldOf(settings, k))
    ensures forall k :: k in s.missing <==> !s.present[k]
    ensures InKeyOrder(s.missing)
    ensures s.ok <==> forall k :: s.present[k]
    ensures forall k :: s.source[k] == Missing <==> !s.present[k]
    ensures forall k :: s.source[k] == FromProfile <==> s.present[k] && usingProfile
  {
    var present := Presence(settings);
    var missing := Unset(present);
    var source := map k | k in present :: if present[k] then (if usingProfile then FromProfile else FromEnv) else Missing;
    EnvStatus(missing == [], present, missing, source, None, [], Default)
  }

  /** Which of the three settings are set (non-empty) in `settings`. */
  function Presence(settings: SenderEnv): (m: map<Key, bool>)
    ensures forall k :: k in m && (m[k] <==> Truthy(FieldOf(settings, k)))
  {
    var m := map[
      SenderEmail := Truthy(settings.senderEmail),
      SenderAppPassword := Truthy(settings.senderAppPassword),
      SenderName := Truthy(settings.senderName)];
    EveryKeyIn(m.Keys);
    m
  }

  /** `REQUIRED.filter(k => !present[k])`: the unset keys in `Keys` order; empty exactly when all are set. */
  function Unset(present: map<Key, bool>): (missing: seq<Key>)
    requires forall k :: k in present
    ensures forall k :: k in missing <==> !present[k]
    ensures InKeyOrder(missing)
    ensures missing == [] <==> forall k :: present[k]
  {
    var missing := Keep(Keys, k => !present[k]);
    KeysFilteredInOrder(k => !present[k]);
    KeysComplete();
    assert missing != [] ==> missing[0] in missing;
    missing
  }

  /**
   * `getEnvStatusAction`: the report on the settings of the requested
   * variant (or the store's, for an unknown name), which come from the
   * active profile when the default variant is used and a profile is active.
   */
  function GetEnvStatus(store: Store, env: Env, variantParam: Option<string>): (s: EnvStatus)
    reads store
    requires store.Valid()
    ensures s.systemVariant == ResolveVariant(variantParam, store.systemVariant)
    ensures forall k :: k in s.present && k in s.source
    ensures forall k :: s.present[k] <==> Truthy(FieldOf(store.SettingsFor(env, s.systemVariant), k))
    ensures forall k :: k in s.missing <==> !s.present[k]
    ensures InKeyOrder(s.missing)
    ensures s.ok <==> forall k :: s.present[k]
    ensures forall k :: s.source[k] == Missing <==> !s.present[k]
    ensures forall k :: s.source[k] == FromProfile <==>
      s.present[k] && s.systemVariant == Default && store.activeProfile.Some?
    ensures s.activeProfile == store.activeProfile && s.profiles == store.order
  {
    var variant := ResolveVariant(variantParam, store.systemVariant);
    var report := Report(store.SettingsFor(env, variant), variant == Default && store.activeProfile.Some?);
    report.(activeProfile := store.GetActiveProfileName(), profiles := store.ListProfiles(), systemVariant := variant)
  }

  /**
   * A setting reported as coming from the profile is set in the active
   * profile; one reported as coming from the environment is set in the
   * environment variables of the variant in use (the store's own variant
   * when the default was asked for and no profile is active).
   */
  lemma StatusSourceIsWhereTheValueIs(store: Store, env: Env, variantParam: Option<string>, k: Key)
    requires store.Valid()
    ensures var s := GetEnvStatus(store, env, variantParam);
      && (s.source[k] == FromProfile ==> Truthy(FieldOf(store.profiles[store.activeProfile.value], k)))
      && (s.source[k] == FromEnv ==>
            Truthy(FieldOf(EnvForVariant(if s.systemVariant == Default then store.systemVariant else s.systemVariant, env), k)))
  {
  }

  // ---------------------------------------------------------------------
  // clearEnvAction
  // ---------------------------------------------------------------------

  /** `clearEnvAction`: drops every profile and the active one, keeps the system variant, and reports ok. */
  method ClearEnv(store: Store) returns (ok: bool)
    requires store.Valid()
    modifies store
    ensures store.Valid() && ok
    ensures store.profiles == map[] && store.order == [] && store.activeProfile == None
    ensures store.systemVariant == old(store.systemVariant)
  {
    store.ClearAllProfiles();
    ok := true;
  }

  // ---------------------------------------------------------------------
  // setVariantAction
  // ---------------------------------------------------------------------

  datatype VariantResult = VariantRejected(error: string) | VariantSet(variant: string)

  /** The input lower-cased; input that is not a string counts as "default". */
  function NormalizedVariant(variant: Option<string>): (n: string)
    ensures variant.None? ==> n == "default"
    ensures variant.Some? ==> n == Lower(variant.value) && |n| == |variant.value|
    ensures Lower(n) == n
  {
    if variant.Some? then
      LowerIdempotent(variant.value);
      Lower(variant.value)
    else "default"
  }

  /**
   * `setVariantAction`: a name that is one of the system variants once
   * lower-cased becomes the system variant; any other name is refused and
   * changes nothing.
   */
  method SetVariant(store: Store, variant: Option<string>) returns (r: VariantResult)
    requires store.Valid()
    modifies store
    ensures store.Valid()
    ensures store.profiles == old(store.profiles) && store.order == old(store.order)
    ensures store.activeProfile == old(store.activeProfile)
    ensures VariantNamed(NormalizedVariant(variant)).None? ==>
      r == VariantRejected("Invalid variant") && store.systemVariant == old(store.systemVariant)
    ensures VariantNamed(NormalizedVariant(variant)).Some? ==>
      && r == VariantSet(NormalizedVariant(variant))
      && VariantName(store.systemVariant) == NormalizedVariant(variant)
  {
    var normalized := NormalizedVariant(variant);
    match VariantNamed(normalized)
    case None =>
      r := VariantRejected("Invalid variant");
    case Some(v) =>
      store.SetSystemVariant(v);
      r := VariantSet(normalized);
  }

  /** Every system variant is accepted whatever the case of its letters. */
  lemma SetVariantIgnoresCase(v: Variant, name: string)
    requires Lower(name) == VariantName(v)
    ensures VariantNamed(NormalizedVariant(Some(name))) == Some(v)
  {
  }
}
