/** Operating system profiles (boom/osprofile.py) as values: the profile keys,
    their defaults, building a profile from a dictionary or from its four
    identity strings, the guarded updates, the null profile and
    `select_profile`. The `OsProfile` class in module OsProfiles holds one of
    these values and updates it in place. */
module Profiles {
  import opened Wrappers
  import opened PyStr
  import opened Externals
  import opened Selections

  datatype ProfileKey =
    | OsIdKey | OsNameKey | OsShortNameKey | OsVersionKey | OsVersionIdKey
    | UnamePatternKey | KernelPatternKey | InitramfsPatternKey
    | RootOptsLvm2Key | RootOptsBtrfsKey | OptionsKey

  /** `OS_PROFILE_KEYS`. */
  const ProfileKeyOrder: seq<ProfileKey> := [
    OsIdKey, OsNameKey, OsShortNameKey, OsVersionKey, OsVersionIdKey,
    UnamePatternKey, KernelPatternKey, InitramfsPatternKey,
    RootOptsLvm2Key, RootOptsBtrfsKey, OptionsKey]

  /** `OS_REQUIRED_KEYS`, the first eight keys (ProfileKeySlices). */
  const RequiredKeys: seq<ProfileKey> := [
    OsIdKey, OsNameKey, OsShortNameKey, OsVersionKey, OsVersionIdKey,
    UnamePatternKey, KernelPatternKey, InitramfsPatternKey]

  /** `OS_ROOT_KEYS`, keys eight and nine. */
  const RootKeys: seq<ProfileKey> := [RootOptsLvm2Key, RootOptsBtrfsKey]

  /** The `BOOM_OS_*` name of a key. */
  function KeyName(k: ProfileKey): string {
    match k
    case OsIdKey => "BOOM_OS_ID"
    case OsNameKey => "BOOM_OS_NAME"
    case OsShortNameKey => "BOOM_OS_SHORT_NAME"
    case OsVersionKey => "BOOM_OS_VERSION"
    case OsVersionIdKey => "BOOM_OS_VERSION_ID"
    case UnamePatternKey => "BOOM_OS_UNAME_PATTERN"
    case KernelPatternKey => "BOOM_OS_KERNEL_PATTERN"
    case InitramfsPatternKey => "BOOM_OS_INITRAMFS_PATTERN"
    case RootOptsLvm2Key => "BOOM_OS_ROOT_OPTS_LVM2"
    case RootOptsBtrfsKey => "BOOM_OS_ROOT_OPTS_BTRFS"
    case OptionsKey => "BOOM_OS_OPTIONS"
  }

  /** The key named `name`, if `name` is one of `OS_PROFILE_KEYS`. */
  function KeyOfName(name: string): (r: Option<ProfileKey>)
    ensures r.Some? ==> KeyName(r.value) == name
  {
    if name == "BOOM_OS_ID" then Some(OsIdKey)
    else if name == "BOOM_OS_NAME" then Some(OsNameKey)
    else if name == "BOOM_OS_SHORT_NAME" then Some(OsShortNameKey)
    else if name == "BOOM_OS_VERSION" then Some(OsVersionKey)
    else if name == "BOOM_OS_VERSION_ID" then Some(OsVersionIdKey)
    else if name == "BOOM_OS_UNAME_PATTERN" then Some(UnamePatternKey)
    else if name == "BOOM_OS_KERNEL_PATTERN" then Some(KernelPatternKey)
    else if name == "BOOM_OS_INITRAMFS_PATTERN" then Some(InitramfsPatternKey)
    else if name == "BOOM_OS_ROOT_OPTS_LVM2" then Some(RootOptsLvm2Key)
    else if name == "BOOM_OS_ROOT_OPTS_BTRFS" then Some(RootOptsBtrfsKey)
    else if name == "BOOM_OS_OPTIONS" then Some(OptionsKey)
    else None
  }

  const KernelDefault := "/vmlinuz-%{version}"
  const InitramfsDefault := "/initramfs-%{version}.img"
  const Lvm2Default := "rd.lvm.lv=%{lvm_root_lv}"
  const BtrfsDefault := "rootflags=%{btrfs_subvolume}"
  const OptionsDefault := "root=%{root_device} ro %{root_opts}"

  /** The keys of `_DEFAULT_KEYS`. */
  predicate IsDefaultKey(k: ProfileKey) {
    k.KernelPatternKey? || k.InitramfsPatternKey? || k.RootOptsLvm2Key? || k.RootOptsBtrfsKey? || k.OptionsKey?
  }

  function DefaultValue(k: ProfileKey): string
    requires IsDefaultKey(k)
  {
    match k
    case KernelPatternKey => KernelDefault
    case InitramfsPatternKey => InitramfsDefault
    case RootOptsLvm2Key => Lvm2Default
    case RootOptsBtrfsKey => BtrfsDefault
    case OptionsKey => OptionsDefault
  }

  /** A profile's `_profile_data`: the values of `BOOM_OS_*` keys, and apart
      from them whatever other names a caller's dictionary carried in. */
  datatype Profile = Profile(data: map<ProfileKey, string>, extra: map<string, string>)

  function Get(p: Profile, k: ProfileKey): Option<string> {
    if k in p.data then Some(p.data[k]) else None
  }

  /** What every constructed profile holds: each key of `OS_PROFILE_KEYS`
      except possibly the uname pattern, which the keyword constructor does
      not set. */
  ghost predicate Complete(p: Profile) {
    forall k :: k != UnamePatternKey ==> k in p.data
  }

  /** The message text of `err_str`. */
  function MissingReason(what: string): string {
    "Invalid profile data (missing " + what + ")"
  }

  /** `_generate_os_id`: the SHA-1 of short name, version and version id. */
  function OsIdFor(shortName: string, version: string, versionId: string, env: Env): string {
    env.digest(shortName + version + versionId)
  }

  /** A dictionary keyed by name, split into its `BOOM_OS_*` entries and the
      rest. */
  function KnownPart(m: map<string, string>): (d: map<ProfileKey, string>)
    ensures forall k :: k in d <==> KeyName(k) in m
    ensures forall k :: k in d ==> d[k] == m[KeyName(k)]
  {
    AllKeysListed();
    map k | k in ProfileKeyOrder && KeyName(k) in m :: m[KeyName(k)]
  }

  function ExtraPart(m: map<string, string>): (x: map<string, string>)
    ensures forall name :: name in x <==> name in m && KeyOfName(name).None?
    ensures forall name :: name in x ==> x[name] == m[name]
  {
    map name | name in m && KeyOfName(name).None? :: m[name]
  }

  /** One step of the defaults loop of `__from_data`. */
  function FillDefault(d: map<ProfileKey, string>, k: ProfileKey): (r: map<ProfileKey, string>)
    requires IsDefaultKey(k)
    ensures forall k2 {:trigger k2 in r} :: k2 in r <==> k2 in d || k2 == k
    ensures forall k2 {:trigger r[k2]} :: k2 in d ==> r[k2] == d[k2]
    ensures k !in d ==> r[k] == DefaultValue(k)
  {
    if k in d then d else d[k := DefaultValue(k)]
  }

  /** The defaults loop of `__from_data`, over `_DEFAULT_KEYS` in its
      declaration order: each default key the dictionary lacks receives its
      default; nothing present is overwritten. */
  function FillDefaults(d: map<ProfileKey, string>): (r: map<ProfileKey, string>)
    ensures forall k {:trigger k in r} :: k in r <==> k in d || IsDefaultKey(k)
    ensures forall k {:trigger r[k]} :: k in d ==> r[k] == d[k]
    ensures forall k {:trigger r[k]} :: k !in d && IsDefaultKey(k) ==> r[k] == DefaultValue(k)
  {
    FillDefault(FillDefault(FillDefault(FillDefault(FillDefault(
      d, KernelPatternKey), InitramfsPatternKey), RootOptsLvm2Key), RootOptsBtrfsKey), OptionsKey)
  }

  /** The first of `ks` other than the identifier that `d` lacks. */
  function FirstMissing(d: map<ProfileKey, string>, ks: seq<ProfileKey>): (r: Option<ProfileKey>)
    ensures r.Some? ==> r.value in ks && r.value != OsIdKey && r.value !in d
  {
    if ks == [] then None
    else if ks[0] != OsIdKey && ks[0] !in d then Some(ks[0])
    else FirstMissing(d, ks[1..])
  }

  /** `__from_data`: fills defaults, checks the required keys (all but the
      identifier, in order) and that some root options key is present,
      keeps every entry of the dictionary, and generates the identifier when
      it is absent. */
  function FromData(m: map<string, string>, env: Env): Result<Profile, Error> {
    FromKnown(KnownPart(m), ExtraPart(m), env)
  }

  /** `__from_data` on a dictionary already split by `KnownPart` and
      `ExtraPart`. */
  function FromKnown(d: map<ProfileKey, string>, extra: map<string, string>, env: Env): Result<Profile, Error> {
    var checked :- CheckData(d);
    Ok(Profile(WithId(checked, env), extra))
  }

  /** The validation half of `__from_data`: defaults, the required keys in
      order, some root options key, and an empty OPTIONS if absent. */
  function CheckData(d: map<ProfileKey, string>): Result<map<ProfileKey, string>, Error> {
    var filled := FillDefaults(d);
    var missing := FirstMissing(filled, RequiredKeys);
    if missing.Some? then Err(ValueError(MissingReason(KeyName(missing.value))))
    else if forall k :: k in RootKeys ==> k !in filled then Err(ValueError(MissingReason("ROOT_OPTS")))
    else Ok(if OptionsKey in filled then filled else filled[OptionsKey := ""])
  }

  /** The identifier step of `__from_data`: a present identifier is kept,
      otherwise `_generate_os_id` computes it. */
  function WithId(w: map<ProfileKey, string>, env: Env): map<ProfileKey, string> {
    if OsIdKey in w then w
    else w[OsIdKey := OsIdFor(Value(w, OsShortNameKey), Value(w, OsVersionKey), Value(w, OsVersionIdKey), env)]
  }

  /** The value of a key the caller has checked to be present. */
  function Value(d: map<ProfileKey, string>, k: ProfileKey): string {
    if k in d then d[k] else ""
  }

  /** The keyword constructor's defaults loop, which overwrites. */
  function SetDefaults(d: map<ProfileKey, string>): map<ProfileKey, string> {
    d[KernelPatternKey := KernelDefault]
     [InitramfsPatternKey := InitramfsDefault]
     [RootOptsLvm2Key := Lvm2Default]
     [RootOptsBtrfsKey := BtrfsDefault]
     [OptionsKey := OptionsDefault]
  }

  /** Every key of `OS_PROFILE_KEYS` set to the empty string. */
  function AllEmpty(): map<ProfileKey, string> {
    map k | k in ProfileKeyOrder :: ""
  }

  /** The null profile: every key empty but for the defaults and the
      identifier, the SHA-1 of the empty string. */
  function NullProfile(env: Env): Profile {
    Profile(SetDefaults(AllEmpty())[OsIdKey := OsIdFor("", "", "", env)], map[])
  }

  /** The keyword constructor's message; the source's adjacent literals
      join "are" and "mandatory." without a space. */
  const InvalidArguments := "Invalid profile arguments: name, short_name, version, and version_id aremandatory."

  /** The identity steps of `OsProfile(name, short_name, version,
      version_id)`, before the identifier: all four unset gives every key
      empty, some unset is an error, otherwise the four values; the defaults
      follow in both cases. An unset argument (`None` or empty in the
      source) is the empty string here. */
  function IdentityData(name: string, shortName: string, version: string, versionId: string)
    : (r: Result<map<ProfileKey, string>, Error>)
    ensures r.Ok? ==> OsShortNameKey in r.value && OsVersionKey in r.value && OsVersionIdKey in r.value
  {
    if name == "" && shortName == "" && version == "" && versionId == "" then
      Ok(SetDefaults(AllEmpty()))
    else if name == "" || shortName == "" || version == "" || versionId == "" then
      Err(ValueError(InvalidArguments))
    else
      Ok(SetDefaults(map[OsNameKey := name, OsShortNameKey := shortName, OsVersionKey := version, OsVersionIdKey := versionId]))
  }

  /** `OsProfile(name, short_name, version, version_id)`: the identity
      steps, then `_generate_os_id`. */
  function NewProfile(name: string, shortName: string, version: string, versionId: string, env: Env)
    : Result<Profile, Error>
  {
    var d :- IdentityData(name, shortName, version, versionId);
    Ok(Profile(d[OsIdKey := OsIdFor(Value(d, OsShortNameKey), Value(d, OsVersionKey), Value(d, OsVersionIdKey), env)], map[]))
  }

  /** `OsProfile(...)` dispatch: a non-empty `profile_data` dictionary
      builds from data; otherwise the keyword arguments are used (an empty
      dictionary is falsy in the source). */
  function ConstructProfile(name: string, shortName: string, version: string, versionId: string,
                            profileData: map<string, string>, env: Env): Result<Profile, Error> {
    if |profileData| > 0 then FromData(profileData, env)
    else NewProfile(name, shortName, version, versionId, env)
  }

  /** `_is_null_profile`: the identifier equals the null profile's, the
      SHA-1 of the empty string. */
  predicate IsNullProfile(p: Profile, env: Env) {
    Get(p, OsIdKey) == Some(env.digest(""))
  }

  /** The format key a property setter refuses to see in its value, for the
      keys that have a guarded setter. */
  function SetterGuard(k: ProfileKey): Option<FormatKey> {
    match k
    case KernelPatternKey => Some(FmtKernel)
    case InitramfsPatternKey => Some(FmtInitramfs)
    case RootOptsLvm2Key => Some(FmtRootOpts)
    case RootOptsBtrfsKey => Some(FmtRootOpts)
    case _ => None
  }

  /** The keys with a property setter; the identity keys are read-only. */
  predicate HasSetter(k: ProfileKey) {
    k in {UnamePatternKey, KernelPatternKey, InitramfsPatternKey, RootOptsLvm2Key, RootOptsBtrfsKey, OptionsKey}
  }

  /** A property setter: refuses a value holding its guard's placeholder
      `%{name}`, otherwise stores the value. */
  function SetProperty(p: Profile, k: ProfileKey, value: string, env: Env): Result<Profile, Error>
    requires HasSetter(k)
  {
    var guard := SetterGuard(k);
    if guard.Some? && Contains(value, Placeholder(env, guard.value)) then
      Err(ValueError("OsProfile." + PropertyName(k) + " cannot contain " + Placeholder(env, guard.value)))
    else Ok(p.(data := p.data[k := value]))
  }

  /** The name a guarded setter gives itself in its error message. */
  function PropertyName(k: ProfileKey): string {
    match k
    case KernelPatternKey => "kernel"
    case InitramfsPatternKey => "initramfs"
    case RootOptsLvm2Key => "root_opts_lvm2"
    case RootOptsBtrfsKey => "root_opts_btrfs"
    case _ => KeyName(k)
  }

  /** A key handed to `__setitem__`, which may not be a string at all. */
  datatype ItemKey = StrKey(s: string) | NonStrKey

  /** `__setitem__`: rejects a non-string key, a name outside
      `OS_PROFILE_KEYS`, and for the four guarded keys a value holding the
      bare key NAME of the guard (not its `%{...}` placeholder). */
  function SetItem(p: Profile, key: ItemKey, value: string, env: Env): Result<Profile, Error> {
    if key.NonStrKey? then Err(TypeError("OsProfile key must be a string."))
    else if KeyOfName(key.s).None? then Err(ValueError("Invalid OsProfile key: " + key.s))
    else
      var k := KeyOfName(key.s).value;
      var guard := SetterGuard(k);
      if guard.Some? && Contains(value, env.name(guard.value)) then
        Err(ValueError("OsProfile." + key.s + " cannot contain " + Placeholder(env, guard.value)))
      else Ok(p.(data := p.data[k := value]))
  }

  /** The getters `os_id` ... `initramfs_pattern` index `_profile_data`
      directly, so a missing key raises `KeyError`. */
  function Attr(p: Profile, k: ProfileKey): (r: Result<string, Error>)
    ensures r.Ok? <==> Get(p, k).Some?
    ensures r.Ok? ==> Get(p, k) == Some(r.value)
  {
    if k in p.data then Ok(p.data[k]) else Err(KeyError(KeyName(k)))
  }

  /** Whether a set exact-match criterion rejects the profile; an unset
      criterion does not read the attribute at all. */
  function Mismatch(criterion: string, p: Profile, k: ProfileKey): Result<bool, Error> {
    if criterion == "" then Ok(false)
    else
      var v :- Attr(p, k);
      Ok(v != criterion)
  }

  /** `select_profile`: the null profile never passes; every set criterion
      must hold, the identifier as a prefix and the others exactly. The
      source reads `os_initramfs_pattern` and `os_options` from the profile,
      attributes `OsProfile` does not have, so setting either of those
      criteria raises `AttributeError` once the earlier criteria pass. */
  function SelectProfile(s: Selection, p: Profile, env: Env): Result<bool, Error> {
    var id :- Attr(p, OsIdKey);
    if id == env.digest("") then Ok(false)
    else if s.osId != "" && !StartsWith(id, s.osId) then Ok(false)
    else
      var nameFails :- Mismatch(s.osName, p, OsNameKey);
      if nameFails then Ok(false) else
      var shortFails :- Mismatch(s.osShortName, p, OsShortNameKey);
      if shortFails then Ok(false) else
      var versionFails :- Mismatch(s.osVersion, p, OsVersionKey);
      if versionFails then Ok(false) else
      var versionIdFails :- Mismatch(s.osVersionId, p, OsVersionIdKey);
      if versionIdFails then Ok(false) else
      var unameFails :- Mismatch(s.osUnamePattern, p, UnamePatternKey);
      if unameFails then Ok(false) else
      var kernelFails :- Mismatch(s.osKernelPattern, p, KernelPatternKey);
      if kernelFails then Ok(false)
      else if s.osInitramfsPattern != "" then Err(AttributeError("os_initramfs_pattern"))
      else if s.osOptions != "" then Err(AttributeError("os_options"))
      else Ok(true)
  }

  // ---------------------------------------------------------------------
  // Lemmas

  lemma AllKeysListed()
    ensures forall k :: k in ProfileKeyOrder
  {
    forall k ensures k in ProfileKeyOrder {
      match k
      case OsIdKey => assert ProfileKeyOrder[0] == k;
      case OsNameKey => assert ProfileKeyOrder[1] == k;
      case OsShortNameKey => assert ProfileKeyOrder[2] == k;
      case OsVersionKey => assert ProfileKeyOrder[3] == k;
      case OsVersionIdKey => assert ProfileKeyOrder[4] == k;
      case UnamePatternKey => assert ProfileKeyOrder[5] == k;
      case KernelPatternKey => assert ProfileKeyOrder[6] == k;
      case InitramfsPatternKey => assert ProfileKeyOrder[7] == k;
      case RootOptsLvm2Key => assert ProfileKeyOrder[8] == k;
      case RootOptsBtrfsKey => assert ProfileKeyOrder[9] == k;
      case OptionsKey => assert ProfileKeyOrder[10] == k;
    }
  }

  lemma ProfileKeySlices()
    ensures RequiredKeys == ProfileKeyOrder[..8] && RootKeys == ProfileKeyOrder[8..10]
  {
  }

  /** The `BOOM_OS_*` names are distinct and recognised. */
  lemma KeyOfNameInvertsKeyName(k: ProfileKey, name: string)
    ensures KeyOfName(KeyName(k)) == Some(k)
    ensures KeyOfName(name) == Some(k) <==> name == KeyName(k)
  {
  }

  /** The keys `__from_data` demands that have no default. */
  predicate IsDataRequired(k: ProfileKey) {
    k.OsNameKey? || k.OsShortNameKey? || k.OsVersionKey? || k.OsVersionIdKey? || k.UnamePatternKey?
  }

  /** When nothing is missing, every listed key but the identifier is present. */
  lemma {:induction false} FirstMissingNone(d: map<ProfileKey, string>, ks: seq<ProfileKey>)
    requires FirstMissing(d, ks).None?
    ensures forall i :: 0 <= i < |ks| && ks[i] != OsIdKey ==> ks[i] in d
  {
    if ks != [] {
      FirstMissingNone(d, ks[1..]);
      assert forall i :: 1 <= i < |ks| ==> ks[i] == ks[1..][i - 1];
    }
  }

  /** Each required key is the identifier, has no default, or has one. */
  lemma RequiredKeysSplit()
    ensures forall i :: 0 <= i < |RequiredKeys| ==>
      RequiredKeys[i] == OsIdKey || IsDataRequired(RequiredKeys[i]) || IsDefaultKey(RequiredKeys[i])
  {
  }

  lemma NoneMissing(d: map<ProfileKey, string>)
    requires FirstMissing(FillDefaults(d), RequiredKeys).None?
    ensures forall k :: IsDataRequired(k) ==> k in d
  {
    var filled := FillDefaults(d);
    FirstMissingNone(filled, RequiredKeys);
    forall k | IsDataRequired(k)
      ensures k in d
    {
      match k
      case OsNameKey => assert RequiredKeys[1] == k;
      case OsShortNameKey => assert RequiredKeys[2] == k;
      case OsVersionKey => assert RequiredKeys[3] == k;
      case OsVersionIdKey => assert RequiredKeys[4] == k;
      case UnamePatternKey => assert RequiredKeys[5] == k;
    }
  }

  lemma SomeMissing(d: map<ProfileKey, string>)
    requires FirstMissing(FillDefaults(d), RequiredKeys).Some?
    ensures var k := FirstMissing(FillDefaults(d), RequiredKeys).value; IsDataRequired(k) && k !in d
  {
    var k := FirstMissing(FillDefaults(d), RequiredKeys).value;
    RequiredKeysSplit();
    var i :| 0 <= i < |RequiredKeys| && RequiredKeys[i] == k;
  }

  lemma CheckDataSucceeds(d: map<ProfileKey, string>)
    ensures CheckData(d).Ok? <==> forall k :: IsDataRequired(k) ==> k in d
    ensures CheckData(d).Err? ==>
      exists k :: IsDataRequired(k) && k !in d && CheckData(d).error == ValueError(MissingReason(KeyName(k)))
  {
    assert IsDefaultKey(RootOptsLvm2Key) && RootOptsLvm2Key in FillDefaults(d);
    if FirstMissing(FillDefaults(d), RequiredKeys).None? {
      NoneMissing(d);
    } else {
      SomeMissing(d);
    }
  }

  lemma CheckDataContents(d: map<ProfileKey, string>)
    requires CheckData(d).Ok?
    ensures forall k :: k in CheckData(d).value <==> k in d || k != OsIdKey
    ensures forall k :: k in d ==> CheckData(d).value[k] == d[k]
    ensures forall k :: k !in d && IsDefaultKey(k) ==> CheckData(d).value[k] == DefaultValue(k)
  {
    CheckDataSucceeds(d);
    var filled := FillDefaults(d);
    assert OptionsKey in filled;
    forall k | k != OsIdKey
      ensures k in filled
    {
      KeyKinds(k);
    }
  }

  lemma FromKnownSucceeds(d: map<ProfileKey, string>, extra: map<string, string>, env: Env)
    ensures FromKnown(d, extra, env).Ok? <==> forall k :: IsDataRequired(k) ==> k in d
    ensures FromKnown(d, extra, env).Err? ==>
      exists k :: IsDataRequired(k) && k !in d && FromKnown(d, extra, env).error == ValueError(MissingReason(KeyName(k)))
  {
    CheckDataSucceeds(d);
  }

  /** Every key is the identifier, has no default, or has one. */
  lemma KeyKinds(k: ProfileKey)
    ensures k == OsIdKey || IsDataRequired(k) || IsDefaultKey(k)
  {
  }

  lemma FromKnownContents(d: map<ProfileKey, string>, extra: map<string, string>, env: Env)
    requires FromKnown(d, extra, env).Ok?
    ensures OsShortNameKey in d && OsVersionKey in d && OsVersionIdKey in d
    ensures var p := FromKnown(d, extra, env).value;
      && (forall k :: k in p.data)
      && (forall k :: k in d ==> p.data[k] == d[k])
      && (forall k :: k !in d && IsDefaultKey(k) ==> p.data[k] == DefaultValue(k))
      && p.extra == extra
      && p.data[OsIdKey] ==
           if OsIdKey in d then d[OsIdKey] else OsIdFor(d[OsShortNameKey], d[OsVersionKey], d[OsVersionIdKey], env)
  {
    CheckDataSucceeds(d);
    CheckDataContents(d);
    assert IsDataRequired(OsShortNameKey) && IsDataRequired(OsVersionKey) && IsDataRequired(OsVersionIdKey);
    var c := CheckData(d).value;
    assert FromKnown(d, extra, env).value == Profile(WithId(c, env), extra);
    if OsIdKey in d {
      assert WithId(c, env) == c;
    } else {
      assert Value(c, OsShortNameKey) == d[OsShortNameKey];
      assert Value(c, OsVersionKey) == d[OsVersionKey];
      assert Value(c, OsVersionIdKey) == d[OsVersionIdKey];
    }
  }

  /** `__from_data` succeeds exactly when the dictionary names each of
      NAME, SHORT_NAME, VERSION, VERSION_ID and UNAME_PATTERN; otherwise it
      reports one of them missing, never the unreachable ROOT_OPTS error. */
  lemma FromDataSucceeds(m: map<string, string>, env: Env)
    ensures FromData(m, env).Ok? <==> forall k :: IsDataRequired(k) ==> KeyName(k) in m
    ensures FromData(m, env).Err? ==>
      exists k :: IsDataRequired(k) && KeyName(k) !in m && FromData(m, env).error == ValueError(MissingReason(KeyName(k)))
  {
    FromKnownSucceeds(KnownPart(m), ExtraPart(m), env);
  }

  /** A profile built from data holds every key, keeps every value of the
      dictionary, holds the default of each default key the dictionary
      lacks, and has the dictionary's identifier or else the one generated
      from short name, version and version id. */
  lemma FromDataContents(m: map<string, string>, env: Env)
    requires FromData(m, env).Ok?
    ensures KeyName(OsShortNameKey) in m && KeyName(OsVersionKey) in m && KeyName(OsVersionIdKey) in m
    ensures var p := FromData(m, env).value;
      && (forall k :: k in p.data)
      && (forall k :: KeyName(k) in m ==> p.data[k] == m[KeyName(k)])
      && (forall k :: KeyName(k) !in m && IsDefaultKey(k) ==> p.data[k] == DefaultValue(k))
      && (forall name :: name in m && KeyOfName(name).None? ==> name in p.extra && p.extra[name] == m[name])
      && p.data[OsIdKey] ==
           if KeyName(OsIdKey) in m then m[KeyName(OsIdKey)]
           else OsIdFor(m[KeyName(OsShortNameKey)], m[KeyName(OsVersionKey)], m[KeyName(OsVersionIdKey)], env)
  {
    FromDataSucceeds(m, env);
    FromKnownContents(KnownPart(m), ExtraPart(m), env);
    assert IsDataRequired(OsShortNameKey) && IsDataRequired(OsVersionKey) && IsDataRequired(OsVersionIdKey);
  }

  /** The null profile is recognised as such, holds every key, and its
      identity keys are empty. */
  lemma NullProfileShape(env: Env)
    ensures IsNullProfile(NullProfile(env), env)
    ensures forall k :: k in NullProfile(env).data
    ensures forall k :: IsDataRequired(k) ==> Get(NullProfile(env), k) == Some("")
  {
    AllKeysListed();
  }

  /** The keyword constructor: all four identity values unset gives the
      null profile; some but not all unset is a `ValueError`. */
  lemma NewProfileOutcome(name: string, shortName: string, version: string, versionId: string, env: Env)
    ensures var r := NewProfile(name, shortName, version, versionId, env);
      && (r.Err? <==> !(name == "" && shortName == "" && version == "" && versionId == "")
                      && (name == "" || shortName == "" || version == "" || versionId == ""))
      && (name == "" && shortName == "" && version == "" && versionId == "" ==> r == Ok(NullProfile(env)))
  {
  }

  /** An empty `profile_data` is falsy, so `OsProfile(profile_data={})`
      takes the keyword path with no identity and builds the null profile,
      where `__from_data` on the same dictionary would raise for the
      missing name. */
  lemma EmptyDataBuildsNull(env: Env)
    ensures ConstructProfile("", "", "", "", map[], env) == Ok(NullProfile(env))
    ensures FromData(map[], env).Err?
  {
    NewProfileOutcome("", "", "", "", env);
    var empty: map<string, string> := map[];
    FromDataSucceeds(empty, env);
    assert IsDataRequired(OsNameKey) && KeyName(OsNameKey) !in empty;
  }

  /** With all four identity values set, the keyword constructor gives a
      profile holding them, the defaults, no uname pattern and the
      identifier generated from short name, version and version id. */
  lemma NewProfileContents(name: string, shortName: string, version: string, versionId: string, env: Env)
    requires name != "" && shortName != "" && version != "" && versionId != ""
    ensures var r := NewProfile(name, shortName, version, versionId, env);
      && r.Ok? && Complete(r.value)
      && Get(r.value, OsNameKey) == Some(name)
      && Get(r.value, OsShortNameKey) == Some(shortName)
      && Get(r.value, OsVersionKey) == Some(version)
      && Get(r.value, OsVersionIdKey) == Some(versionId)
      && Get(r.value, UnamePatternKey).None?
      && (forall k :: IsDefaultKey(k) ==> Get(r.value, k) == Some(DefaultValue(k)))
      && Get(r.value, OsIdKey) == Some(OsIdFor(shortName, version, versionId, env))
  {
    KeywordData(name, shortName, version, versionId, env);
    var data := NewProfile(name, shortName, version, versionId, env).value.data;
    forall k | k != UnamePatternKey
      ensures k in data
    {
      KeyKinds(k);
    }
  }

  lemma KeywordData(name: string, shortName: string, version: string, versionId: string, env: Env)
    requires name != "" && shortName != "" && version != "" && versionId != ""
    ensures NewProfile(name, shortName, version, versionId, env)
         == Ok(Profile(SetDefaults(map[OsNameKey := name, OsShortNameKey := shortName, OsVersionKey := version,
                                       OsVersionIdKey := versionId])[OsIdKey := OsIdFor(shortName, version, versionId, env)],
                       map[]))
  {
    var d := SetDefaults(map[OsNameKey := name, OsShortNameKey := shortName, OsVersionKey := version,
                             OsVersionIdKey := versionId]);
    assert Value(d, OsShortNameKey) == shortName && Value(d, OsVersionKey) == version
        && Value(d, OsVersionIdKey) == versionId;
  }

  /** A profile from the keyword constructor is null exactly when all four
      values are unset or, failing that, when SHA-1 of short name, version
      and version id collides with SHA-1 of the empty string. */
  lemma NewProfileNullness(name: string, shortName: string, version: string, versionId: string, env: Env)
    requires NewProfile(name, shortName, version, versionId, env).Ok?
    ensures IsNullProfile(NewProfile(name, shortName, version, versionId, env).value, env)
        <==> (name == "" && shortName == "" && version == "" && versionId == "")
             || OsIdFor(shortName, version, versionId, env) == env.digest("")
  {
    NewProfileOutcome(name, shortName, version, versionId, env);
    if name != "" && shortName != "" && version != "" && versionId != "" {
      NewProfileContents(name, shortName, version, versionId, env);
    }
    NullProfileShape(env);
  }

  /** A property setter fails exactly when the value holds the guarded
      placeholder; on success that key holds the value and nothing else
      changes. */
  lemma SetPropertyOutcome(p: Profile, k: ProfileKey, value: string, env: Env)
    requires HasSetter(k)
    ensures var r := SetProperty(p, k, value, env);
      && (r.Err? <==> SetterGuard(k).Some? && Contains(value, Placeholder(env, SetterGuard(k).value)))
      && (r.Ok? ==> Get(r.value, k) == Some(value) && r.value.extra == p.extra
                    && (forall k2 :: k2 != k ==> Get(r.value, k2) == Get(p, k2))
                    && (Complete(p) ==> Complete(r.value)))
  {
  }

  /** A guarded setter accepts a template exactly when the template holds no
      placeholder for the guarded key. */
  lemma SetPropertyAcceptsTemplate(p: Profile, k: ProfileKey, ps: seq<Piece>, env: Env)
    requires WellFormedEnv(env) && PlainPieces(ps)
    requires HasSetter(k) && SetterGuard(k).Some?
    ensures SetProperty(p, k, Render(env, ps), env).Ok? <==> Ph(SetterGuard(k).value) !in ps
  {
    RenderContains(env, ps, SetterGuard(k).value);
  }

  /** `__setitem__` fails with `TypeError` on a non-string key, with
      `ValueError` on a name outside `OS_PROFILE_KEYS` or a guarded value;
      on success exactly the named key changes. */
  lemma SetItemOutcome(p: Profile, key: ItemKey, value: string, env: Env)
    ensures var r := SetItem(p, key, value, env);
      && (key.NonStrKey? ==> r.Err? && r.error.TypeError?)
      && (key.StrKey? && KeyOfName(key.s).None? ==> r.Err? && r.error.ValueError?)
      && (r.Ok? <==> key.StrKey? && KeyOfName(key.s).Some?
                      && (SetterGuard(KeyOfName(key.s).value).None?
                          || !Contains(value, env.name(SetterGuard(KeyOfName(key.s).value).value))))
      && (r.Ok? ==> var k := KeyOfName(key.s).value;
                    KeyName(k) == key.s && Get(r.value, k) == Some(value) && r.value.extra == p.extra
                    && (forall k2 :: k2 != k ==> Get(r.value, k2) == Get(p, k2)))
  {
  }

  /** `__setitem__` is stricter than the property setter of the same key:
      everything the setter refuses it refuses too, and where both accept
      they store the same thing. */
  lemma SetItemStricterThanSetter(p: Profile, k: ProfileKey, value: string, env: Env)
    requires WellFormedEnv(env) && HasSetter(k)
    ensures SetProperty(p, k, value, env).Err? ==> SetItem(p, StrKey(KeyName(k)), value, env).Err?
    ensures SetItem(p, StrKey(KeyName(k)), value, env).Ok? ==>
      SetProperty(p, k, value, env) == SetItem(p, StrKey(KeyName(k)), value, env)
  {
    KeyOfNameInvertsKeyName(k, KeyName(k));
    var guard := SetterGuard(k);
    if guard.Some? && Contains(value, Placeholder(env, guard.value)) {
      var n := env.name(guard.value);
      ContainsMiddle("%{", n, "}");
      ContainsTransitive(value, Placeholder(env, guard.value), n);
    }
  }

  /** The two checks differ: the bare key name is accepted by the setter but
      refused by `__setitem__`. */
  lemma SetItemRefusesBareName(p: Profile, k: ProfileKey, env: Env)
    requires WellFormedEnv(env) && HasSetter(k) && SetterGuard(k).Some?
    ensures SetProperty(p, k, env.name(SetterGuard(k).value), env).Ok?
    ensures SetItem(p, StrKey(KeyName(k)), env.name(SetterGuard(k).value), env).Err?
  {
    KeyOfNameInvertsKeyName(k, KeyName(k));
    var n := env.name(SetterGuard(k).value);
    if Contains(n, Placeholder(env, SetterGuard(k).value)) {
      ContainsNoLonger(n, Placeholder(env, SetterGuard(k).value));
    }
    assert StartsWith(n, n);
    ContainsOwnPrefix(n, n);
  }

  /** The criteria of `select_profile` read as one conjunction: every set
      criterion holds and neither unsupported criterion is set. */
  predicate Satisfies(s: Selection, p: Profile) {
    && OsIdKey in p.data
    && (s.osId == "" || StartsWith(p.data[OsIdKey], s.osId))
    && (s.osName == "" || Get(p, OsNameKey) == Some(s.osName))
    && (s.osShortName == "" || Get(p, OsShortNameKey) == Some(s.osShortName))
    && (s.osVersion == "" || Get(p, OsVersionKey) == Some(s.osVersion))
    && (s.osVersionId == "" || Get(p, OsVersionIdKey) == Some(s.osVersionId))
    && (s.osUnamePattern == "" || Get(p, UnamePatternKey) == Some(s.osUnamePattern))
    && (s.osKernelPattern == "" || Get(p, KernelPatternKey) == Some(s.osKernelPattern))
    && s.osInitramfsPattern == "" && s.osOptions == ""
  }

  /** `select_profile` selects exactly the non-null profiles meeting every
      set criterion. */
  lemma SelectProfileMeaning(s: Selection, p: Profile, env: Env)
    ensures SelectProfile(s, p, env) == Ok(true) <==> !IsNullProfile(p, env) && Satisfies(s, p)
  {
  }

  /** The null profile is never selected. */
  lemma SelectProfileSkipsNull(s: Selection, p: Profile, env: Env)
    requires IsNullProfile(p, env)
    ensures SelectProfile(s, p, env) == Ok(false)
  {
  }

  /** With no criteria every constructed profile but the null one passes. */
  lemma SelectProfileNoCriteria(p: Profile, env: Env)
    requires Complete(p) && !IsNullProfile(p, env)
    ensures SelectProfile(NoCriteria, p, env) == Ok(true)
  {
    assert OsIdKey in p.data;
  }

  /** Unsetting criteria never loses a selected profile. */
  lemma SelectProfileMonotone(weak: Selection, strong: Selection, p: Profile, env: Env)
    requires Relaxes(weak, strong)
    requires SelectProfile(strong, p, env) == Ok(true)
    ensures SelectProfile(weak, p, env) == Ok(true)
  {
    SelectProfileMeaning(strong, p, env);
    SelectProfileMeaning(weak, p, env);
  }

  /** On a profile holding every key, the only failures are the two
      unsupported criteria, and setting either of them never selects. */
  lemma SelectProfileErrors(s: Selection, p: Profile, env: Env)
    requires forall k :: k in p.data
    ensures SelectProfile(s, p, env).Err? ==>
      SelectProfile(s, p, env).error in {AttributeError("os_initramfs_pattern"), AttributeError("os_options")}
    ensures s.osInitramfsPattern != "" || s.osOptions != "" ==> SelectProfile(s, p, env) != Ok(true)
  {
    assert OsIdKey in p.data && OsNameKey in p.data && OsShortNameKey in p.data && OsVersionKey in p.data;
    assert OsVersionIdKey in p.data && UnamePatternKey in p.data && KernelPatternKey in p.data;
  }

  /** A uname criterion on a profile without a uname pattern raises
      `KeyError` once the earlier criteria pass. */
  lemma SelectProfileMissingUname(s: Selection, p: Profile, env: Env)
    requires UnamePatternKey !in p.data && s.osUnamePattern != ""
    ensures SelectProfile(s, p, env) != Ok(true)
    ensures (forall k :: k != UnamePatternKey ==> k in p.data) && SelectProfile(s, p, env).Err? ==>
      SelectProfile(s, p, env).error == KeyError(KeyName(UnamePatternKey))
  {
  }
}
