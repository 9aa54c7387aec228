/** The `OsProfile` class of boom/osprofile.py and the module's profile
    list: objects whose `_profile_data` and `_unwritten` flag the setters
    update in place, the two constructors, `find_profiles` and
    `get_os_profile_by_id`. The values these objects hold, and what is
    proved about them, are in module Profiles. */
module OsProfiles {
  import opened Wrappers
  import opened PyStr
  import opened Externals
  import opened Selections
  import opened Profiles
  import FR = FormatRegexes
  import opened Sorting

  class OsProfile {
    /** The `BOOM_OS_*` entries of `_profile_data`. */
    var data: map<ProfileKey, string>
    /** Any other names a caller's dictionary carried into `_profile_data`. */
    var extra: map<string, string>
    /** `_unwritten`: the profile differs from what is on disk. */
    var unwritten: bool

    function Value(): Profile
      reads this
    {
      Profile(data, extra)
    }

    constructor Init(p: Profile, dirty: bool)
      ensures Value() == p && unwritten == dirty
    {
      data := p.data;
      extra := p.extra;
      unwritten := dirty;
    }

    /** `_dirty`. */
    method MarkDirty()
      modifies this
      ensures unwritten && data == old(data) && extra == old(extra)
    {
      unwritten := true;
    }

    /** `_generate_os_id`: the getters it reads raise unless the three keys
        are present. */
    method GenerateOsId(env: Env)
      requires OsShortNameKey in data && OsVersionKey in data && OsVersionIdKey in data
      modifies this
      ensures data == old(data)[OsIdKey := OsIdFor(old(data)[OsShortNameKey], old(data)[OsVersionKey],
                                                   old(data)[OsVersionIdKey], env)]
      ensures extra == old(extra) && unwritten == old(unwritten)
    {
      var hashdata := data[OsShortNameKey] + data[OsVersionKey] + data[OsVersionIdKey];
      data := data[OsIdKey := env.digest(hashdata)];
    }

    /** The property setters `uname_pattern`, `kernel_pattern`,
        `initramfs_pattern`, `root_opts_lvm2`, `root_opts_btrfs` and
        `options`: a refused value leaves the profile as it was; an accepted
        one is stored and marks the profile dirty. */
    method SetProperty(k: ProfileKey, value: string, env: Env) returns (err: Option<Error>)
      requires HasSetter(k)
      modifies this
      ensures var r := Profiles.SetProperty(old(Value()), k, value, env);
        && (r.Ok? ==> err.None? && Value() == r.value && unwritten)
        && (r.Err? ==> err == Some(r.error) && Value() == old(Value()) && unwritten == old(unwritten))
    {
      var guard := SetterGuard(k);
      if guard.Some? && Contains(value, Placeholder(env, guard.value)) {
        return Some(ValueError("OsProfile." + PropertyName(k) + " cannot contain " + Placeholder(env, guard.value)));
      }
      data := data[k := value];
      MarkDirty();
      err := None;
    }

    /** `__setitem__`, which does not mark the profile dirty. */
    method SetItem(key: ItemKey, value: string, env: Env) returns (err: Option<Error>)
      modifies this
      ensures var r := Profiles.SetItem(old(Value()), key, value, env);
        && (r.Ok? ==> err.None? && Value() == r.value)
        && (r.Err? ==> err == Some(r.error) && Value() == old(Value()))
      ensures unwritten == old(unwritten)
    {
      if key.NonStrKey? {
        return Some(TypeError("OsProfile key must be a string."));
      }
      var k := KeyOfName(key.s);
      if k.None? {
        return Some(ValueError("Invalid OsProfile key: " + key.s));
      }
      var guard := SetterGuard(k.value);
      if guard.Some? && Contains(value, env.name(guard.value)) {
        return Some(ValueError("OsProfile." + key.s + " cannot contain " + Placeholder(env, guard.value)));
      }
      data := data[k.value := value];
      err := None;
    }

    /** The null-profile loop of `__init__` over `OS_PROFILE_KEYS`: each
        listed key set to the empty string. */
    method BlankKeys(keys: seq<ProfileKey>)
      modifies this
      ensures data == BlankFrom(old(data), keys)
      ensures extra == old(extra) && unwritten == old(unwritten)
    {
      ghost var start := data;
      for i := 0 to |keys|
        invariant BlankFrom(data, keys[i..]) == BlankFrom(start, keys)
        invariant extra == old(extra) && unwritten == old(unwritten)
      {
        assert keys[i..][1..] == keys[i + 1..];
        data := data[keys[i] := ""];
      }
      assert keys[|keys|..] == [];
    }

    /** The defaults loop of `__init__` over `_DEFAULT_KEYS`, which
        overwrites. */
    method AssignKeys(table: seq<(ProfileKey, string)>)
      modifies this
      ensures data == AssignFrom(old(data), table)
      ensures extra == old(extra) && unwritten == old(unwritten)
    {
      ghost var start := data;
      for i := 0 to |table|
        invariant AssignFrom(data, table[i..]) == AssignFrom(start, table)
        invariant extra == old(extra) && unwritten == old(unwritten)
      {
        assert table[i..][1..] == table[i + 1..];
        data := data[table[i].0 := table[i].1];
      }
      assert table[|table|..] == [];
    }

    /** The identity steps of `__init__` up to `_generate_os_id`: the four
        identity values stored, then either every key blanked (all four
        unset), the error (some unset), and the defaults installed. */
    method SetIdentity(name: string, shortName: string, version: string, versionId: string)
      returns (err: Option<Error>)
      modifies this
      ensures var r := IdentityData(name, shortName, version, versionId);
        && (r.Err? ==> err == Some(r.error))
        && (r.Ok? ==> err.None? && data == r.value)
      ensures extra == old(extra) && unwritten == old(unwritten)
    {
      data := map[OsNameKey := name, OsShortNameKey := shortName, OsVersionKey := version, OsVersionIdKey := versionId];
      if name == "" && shortName == "" && version == "" && versionId == "" {
        BlankAll(data);
        BlankKeys(ProfileKeyOrder);
      } else if name == "" || shortName == "" || version == "" || versionId == "" {
        return Some(ValueError(InvalidArguments));
      }
      AssignFromDefaults(data);
      AssignKeys(DefaultTable);
      err := None;
    }

    /** `make_format_regexes`: the pairs, or `RecursionError` when a
      template expands into itself. */
    method MakeFormatRegexes(fmt: string, env: Env) returns (r: FR.Regexes)
      requires FR.HasTemplates(Value())
      ensures r == FR.FormatRegexes(env, Value(), fmt)
    {
      r := FR.MakeFormatRegexes(env, Value(), fmt);
    }
  }

  // ---------------------------------------------------------------------
  // The constructor's loops over constant tables

  /** `_DEFAULT_KEYS` in declaration order. */
  const DefaultTable: seq<(ProfileKey, string)> := [
    (KernelPatternKey, KernelDefault), (InitramfsPatternKey, InitramfsDefault),
    (RootOptsLvm2Key, Lvm2Default), (RootOptsBtrfsKey, BtrfsDefault), (OptionsKey, OptionsDefault)]

  /** `for key in table: if key not in d: d[key] = value`. */
  function FillFrom(d: map<ProfileKey, string>, table: seq<(ProfileKey, string)>): map<ProfileKey, string>
    decreases |table|
  {
    if table == [] then d
    else FillFrom(if table[0].0 in d then d else d[table[0].0 := table[0].1], table[1..])
  }

  /** `for key in table: d[key] = value`. */
  function AssignFrom(d: map<ProfileKey, string>, table: seq<(ProfileKey, string)>): map<ProfileKey, string>
    decreases |table|
  {
    if table == [] then d else AssignFrom(d[table[0].0 := table[0].1], table[1..])
  }

  /** `for key in keys: d[key] = ""`. */
  function BlankFrom(d: map<ProfileKey, string>, keys: seq<ProfileKey>): map<ProfileKey, string>
    decreases |keys|
  {
    if keys == [] then d else BlankFrom(d[keys[0] := ""], keys[1..])
  }

  /** After the blanking loop the listed keys are empty, the others kept. */
  lemma {:induction false} BlankFromContents(d: map<ProfileKey, string>, keys: seq<ProfileKey>)
    ensures forall k :: k in BlankFrom(d, keys) <==> k in d || k in keys
    ensures forall k :: k in BlankFrom(d, keys) ==> BlankFrom(d, keys)[k] == if k in keys then "" else d[k]
    decreases |keys|
  {
    if keys != [] {
      BlankFromContents(d[keys[0] := ""], keys[1..]);
      assert forall k :: k in keys <==> k == keys[0] || k in keys[1..];
    }
  }

  lemma DefaultTableShape()
    ensures |DefaultTable| == 5
    ensures DefaultTable[0] == (KernelPatternKey, KernelDefault) && DefaultTable[1] == (InitramfsPatternKey, InitramfsDefault)
    ensures DefaultTable[2] == (RootOptsLvm2Key, Lvm2Default) && DefaultTable[3] == (RootOptsBtrfsKey, BtrfsDefault)
    ensures DefaultTable[4] == (OptionsKey, OptionsDefault)
  {
  }

  /** The filling loop over `_DEFAULT_KEYS` is `FillDefaults`. */
  lemma FillFromDefaults(d: map<ProfileKey, string>)
    ensures FillFrom(d, DefaultTable) == FillDefaults(d)
  {
    DefaultTableShape();
    var t := DefaultTable;
    var d1 := FillDefault(d, KernelPatternKey);
    var d2 := FillDefault(d1, InitramfsPatternKey);
    var d3 := FillDefault(d2, RootOptsLvm2Key);
    var d4 := FillDefault(d3, RootOptsBtrfsKey);
    var d5 := FillDefault(d4, OptionsKey);
    assert FillFrom(d4, t[4..]) == FillFrom(d5, t[5..]);
    assert FillFrom(d3, t[3..]) == FillFrom(d4, t[4..]);
    assert FillFrom(d2, t[2..]) == FillFrom(d3, t[3..]);
    assert FillFrom(d1, t[1..]) == FillFrom(d2, t[2..]);
    assert FillFrom(d, t) == FillFrom(d1, t[1..]);
  }

  /** The assigning loop over `_DEFAULT_KEYS` is `SetDefaults`. */
  lemma AssignFromDefaults(d: map<ProfileKey, string>)
    ensures AssignFrom(d, DefaultTable) == SetDefaults(d)
  {
    DefaultTableShape();
    var t := DefaultTable;
    var d1 := d[KernelPatternKey := KernelDefault];
    var d2 := d1[InitramfsPatternKey := InitramfsDefault];
    var d3 := d2[RootOptsLvm2Key := Lvm2Default];
    var d4 := d3[RootOptsBtrfsKey := BtrfsDefault];
    var d5 := d4[OptionsKey := OptionsDefault];
    assert AssignFrom(d4, t[4..]) == AssignFrom(d5, t[5..]);
    assert AssignFrom(d3, t[3..]) == AssignFrom(d4, t[4..]);
    assert AssignFrom(d2, t[2..]) == AssignFrom(d3, t[3..]);
    assert AssignFrom(d1, t[1..]) == AssignFrom(d2, t[2..]);
    assert AssignFrom(d, t) == AssignFrom(d1, t[1..]);
  }

  /** Blanking every key of `OS_PROFILE_KEYS` leaves only empty values. */
  lemma BlankAll(d: map<ProfileKey, string>)
    ensures BlankFrom(d, ProfileKeyOrder) == AllEmpty()
  {
    AllKeysListed();
    BlankFromContents(d, ProfileKeyOrder);
  }

  // ---------------------------------------------------------------------
  // The constructors

  /** The caller's `profile_data` dictionary. `__from_data` writes the
      defaults into it before it validates, so the caller sees them even
      when the construction fails, and the profile keeps a copy. */
  class ProfileDict {
    var items: map<string, string>

    constructor (m: map<string, string>)
      ensures items == m
    {
      items := m;
    }

    /** The defaults loop of `__from_data`: each missing default is stored
        under its key name, and nothing else changes. */
    method FillDefaultsIn()
      modifies this
      ensures KnownPart(items) == FillDefaults(KnownPart(old(items)))
      ensures ExtraPart(items) == ExtraPart(old(items))
    {
      ghost var d := KnownPart(items);
      for i := 0 to |DefaultTable|
        invariant FillFrom(KnownPart(items), DefaultTable[i..]) == FillFrom(d, DefaultTable)
        invariant ExtraPart(items) == ExtraPart(old(items))
      {
        var (key, value) := DefaultTable[i];
        FillStep(items, DefaultTable, i);
        if KeyName(key) !in items {
          items := items[KeyName(key) := value];
        }
      }
      assert DefaultTable[|DefaultTable|..] == [];
      FillFromDefaults(d);
    }
  }

  /** One turn of the defaults loop on the dictionary is one step of
      `FillFrom` on its known part. */
  lemma FillStep(m: map<string, string>, table: seq<(ProfileKey, string)>, i: nat)
    requires i < |table|
    ensures var (k, v) := table[i];
      var m' := if KeyName(k) in m then m else m[KeyName(k) := v];
      FillFrom(KnownPart(m'), table[i + 1..]) == FillFrom(KnownPart(m), table[i..])
      && ExtraPart(m') == ExtraPart(m)
  {
    assert table[i..][1..] == table[i + 1..];
    StoreKnown(m, table[i].0, table[i].1);
  }

  /** Storing under a `BOOM_OS_*` name changes that key of the known part
      and leaves the other keys alone. */
  lemma StoreKnown(m: map<string, string>, k: ProfileKey, v: string)
    ensures KnownPart(m[KeyName(k) := v]) == KnownPart(m)[k := v]
    ensures ExtraPart(m[KeyName(k) := v]) == ExtraPart(m)
    ensures KeyName(k) in m <==> k in KnownPart(m)
  {
    var m' := m[KeyName(k) := v];
    var a, b := KnownPart(m'), KnownPart(m)[k := v];
    forall k2
      ensures (k2 in a <==> k2 in b) && (k2 in a ==> a[k2] == b[k2])
    {
      KeyOfNameInvertsKeyName(k2, KeyName(k));
      KeyOfNameInvertsKeyName(k, KeyName(k));
    }
    assert a == b;
    var x, y := ExtraPart(m'), ExtraPart(m);
    forall name
      ensures (name in x <==> name in y) && (name in x ==> x[name] == y[name])
    {
      KeyOfNameInvertsKeyName(k, name);
    }
    assert x == y;
  }

  /** The required-keys loop of `__from_data`: the first key it raises
      for. */
  method RequiredKeysLoop(profileData: map<ProfileKey, string>) returns (missing: Option<ProfileKey>)
    ensures missing == FirstMissing(profileData, RequiredKeys)
  {
    for i := 0 to |RequiredKeys|
      invariant FirstMissing(profileData, RequiredKeys[i..]) == FirstMissing(profileData, RequiredKeys)
    {
      assert RequiredKeys[i..][1..] == RequiredKeys[i + 1..];
      var key := RequiredKeys[i];
      if key == OsIdKey {
        continue;
      }
      if key !in profileData {
        return Some(key);
      }
    }
    assert RequiredKeys[|RequiredKeys|..] == [];
    return None;
  }

  /** The validation steps of `__from_data`, which fill the caller's
      dictionary first and then check it. */
  method CheckDataSteps(dict: ProfileDict) returns (r: Result<map<ProfileKey, string>, Error>)
    modifies dict
    ensures r == CheckData(KnownPart(old(dict.items)))
    ensures KnownPart(dict.items) == FillDefaults(KnownPart(old(dict.items)))
    ensures ExtraPart(dict.items) == ExtraPart(old(dict.items))
  {
    dict.FillDefaultsIn();
    var profileData := KnownPart(dict.items);
    var missing := RequiredKeysLoop(profileData);
    if missing.Some? {
      return Err(ValueError(MissingReason(KeyName(missing.value))));
    }
    assert RootKeys == [RootOptsLvm2Key, RootOptsBtrfsKey];
    if RootOptsLvm2Key !in profileData && RootOptsBtrfsKey !in profileData {
      return Err(ValueError(MissingReason("ROOT_OPTS")));
    }
    if OptionsKey !in profileData {
      profileData := profileData[OptionsKey := ""];
    }
    return Ok(profileData);
  }

  /** `OsProfile(profile_data=dict)`, through `__from_data`: the outcome of
      `FromData` on the dictionary as given, which is left holding the
      defaults whether or not the construction succeeds. */
  method NewFromData(dict: ProfileDict, env: Env) returns (r: Result<OsProfile, Error>)
    modifies dict
    ensures r.Ok? <==> FromData(old(dict.items), env).Ok?
    ensures r.Err? ==> r.error == FromData(old(dict.items), env).error
    ensures r.Ok? ==> fresh(r.value) && r.value.Value() == FromData(old(dict.items), env).value && r.value.unwritten
    ensures KnownPart(dict.items) == FillDefaults(KnownPart(old(dict.items)))
    ensures ExtraPart(dict.items) == ExtraPart(old(dict.items))
  {
    ghost var m := dict.items;
    var checked :- CheckDataSteps(dict);
    CheckDataContents(KnownPart(m));
    var osp := new OsProfile.Init(Profile(checked, ExtraPart(dict.items)), false);
    if OsIdKey !in osp.data {
      osp.GenerateOsId(env);
    }
    osp.MarkDirty();
    r := Ok(osp);
  }

  /** The dictionary `__from_data` leaves behind builds the same profile
      again, or fails in the same way. */
  lemma RefilledBuildsSame(m: map<string, string>, filled: map<string, string>, env: Env)
    requires KnownPart(filled) == FillDefaults(KnownPart(m)) && ExtraPart(filled) == ExtraPart(m)
    ensures FromData(filled, env) == FromData(m, env)
  {
    var d := KnownPart(m);
    FillDefaultsIdempotent(d);
    SameFilledSameCheck(FillDefaults(d), d);
    assert FromData(filled, env) == FromKnown(FillDefaults(d), ExtraPart(m), env);
  }

  lemma SameFilledSameCheck(x: map<ProfileKey, string>, y: map<ProfileKey, string>)
    requires FillDefaults(x) == FillDefaults(y)
    ensures CheckData(x) == CheckData(y)
  {
  }

  lemma FillDefaultsIdempotent(d: map<ProfileKey, string>)
    ensures FillDefaults(FillDefaults(d)) == FillDefaults(d)
  {
    var f := FillDefaults(d);
    var ff := FillDefaults(f);
    forall k
      ensures (k in ff <==> k in f) && (k in ff ==> ff[k] == f[k])
    {
    }
    assert ff == f;
  }

  /** `OsProfile(name, short_name, version, version_id)`, which also
      appends the new profile to the global list. */
  method NewFromIdentity(store: ProfileStore, name: string, shortName: string, version: string, versionId: string,
                         env: Env) returns (r: Result<OsProfile, Error>)
    modifies store
    ensures r.Ok? <==> NewProfile(name, shortName, version, versionId, env).Ok?
    ensures r.Err? ==> r.error == NewProfile(name, shortName, version, versionId, env).error
                       && store.profiles == old(store.profiles)
    ensures r.Ok? ==> && fresh(r.value)
                      && r.value.Value() == NewProfile(name, shortName, version, versionId, env).value
                      && r.value.unwritten
                      && store.profiles == old(store.profiles) + [r.value]
    ensures store.byId == old(store.byId)
  {
    var osp := new OsProfile.Init(Profile(map[], map[]), false);
    osp.MarkDirty();
    var err := osp.SetIdentity(name, shortName, version, versionId);
    if err.Some? {
      return Err(err.value);
    }
    osp.GenerateOsId(env);
    store.profiles := store.profiles + [osp];
    r := Ok(osp);
  }

  /** `OsProfile(name, short_name, version, version_id, profile_data=...)`:
      a non-empty dictionary builds through `__from_data`, which fills it
      in place and leaves the global list alone; an empty one is falsy, so
      the keyword path runs, the dictionary is not touched and the new
      profile is appended to the global list. */
  method NewOsProfile(store: ProfileStore, name: string, shortName: string, version: string, versionId: string,
                      dict: ProfileDict, env: Env) returns (r: Result<OsProfile, Error>)
    modifies store, dict
    ensures var c := ConstructProfile(name, shortName, version, versionId, old(dict.items), env);
      && (r.Ok? <==> c.Ok?)
      && (r.Err? ==> r.error == c.error)
      && (r.Ok? ==> fresh(r.value) && r.value.Value() == c.value && r.value.unwritten)
    ensures old(dict.items) != map[] ==>
      && KnownPart(dict.items) == FillDefaults(KnownPart(old(dict.items)))
      && ExtraPart(dict.items) == ExtraPart(old(dict.items))
      && store.profiles == old(store.profiles)
    ensures old(dict.items) == map[] ==>
      && dict.items == map[]
      && store.profiles == (if r.Ok? then old(store.profiles) + [r.value] else old(store.profiles))
    ensures store.byId == old(store.byId)
  {
    if |dict.items| > 0 {
      r := NewFromData(dict, env);
    } else {
      r := NewFromIdentity(store, name, shortName, version, versionId, env);
    }
  }

  // ---------------------------------------------------------------------
  // The profile list

  /** `_profiles` and `_profiles_by_id`. */
  class ProfileStore {
    var profiles: seq<OsProfile>
    var byId: map<string, OsProfile>

    /** `load_profiles` with no profile files on disk: the null profile,
        listed and indexed by its identifier. */
    constructor Load(nullProfile: OsProfile)
      requires OsIdKey in nullProfile.data
      ensures profiles == [nullProfile]
      ensures byId == map[nullProfile.data[OsIdKey] := nullProfile]
    {
      profiles := [nullProfile];
      byId := map[nullProfile.data[OsIdKey] := nullProfile];
    }

    /** `get_os_profile_by_id`. */
    method GetById(osId: string) returns (r: Option<OsProfile>)
      ensures r.Some? <==> osId in byId
      ensures r.Some? ==> r.value == byId[osId]
    {
      if osId in byId {
        return Some(byId[osId]);
      }
      return None;
    }

    /** `find_profiles`: the listed profiles that are not null and pass
        `match_fn`, sorted by `(os_name, os_version)`. */
    method FindProfiles(selection: Option<Selection>, matchFn: (Selection, Profile) -> Result<bool, Error>, env: Env)
      returns (r: Result<seq<OsProfile>, Error>)
      ensures r == FindSpec(profiles, selection.GetOr(NoCriteria), matchFn, env)
    {
      var s := if selection.Some? then selection.value else NoCriteria;
      var matches: seq<OsProfile> := [];
      assert profiles[0..] == profiles;
      ThenNil(Matching(profiles, s, matchFn, env));
      for i := 0 to |profiles|
        invariant Then(matches, Matching(profiles[i..], s, matchFn, env)) == Matching(profiles, s, matchFn, env)
      {
        var osp := profiles[i];
        ghost var tail := profiles[i..];
        assert tail[0] == osp && tail[1..] == profiles[i + 1..];
        var isNull :- NullTest(osp, env);
        if isNull {
          continue;
        }
        var keep :- matchFn(s, osp.Value());
        if keep {
          ThenAppend(matches, osp, Matching(profiles[i + 1..], s, matchFn, env));
          matches := matches + [osp];
        }
      }
      assert profiles[|profiles|..] == [];
      assert Matching(profiles, s, matchFn, env) == Ok(matches + []);
      assert matches + [] == matches;
      var keyed :- Keyed(matches);
      r := Ok(Unkeyed(Sort(keyed)));
    }
  }

  /** `_is_null_profile`: the `os_id` getter raises `KeyError` when the key
      is absent. */
  function NullTest(o: OsProfile, env: Env): Result<bool, Error>
    reads o
  {
    var id :- Attr(o.Value(), OsIdKey);
    Ok(id == env.digest(""))
  }

  /** Appends `acc` in front of a successful result. */
  function Then<T>(acc: seq<T>, r: Result<seq<T>, Error>): Result<seq<T>, Error> {
    if r.Ok? then Ok(acc + r.value) else r
  }

  lemma ThenNil<T>(r: Result<seq<T>, Error>)
    ensures Then([], r) == r
  {
    if r.Ok? {
      assert [] + r.value == r.value;
    }
  }

  lemma ThenAppend<T>(acc: seq<T>, x: T, r: Result<seq<T>, Error>)
    ensures Then(acc + [x], r) == Then(acc, if r.Ok? then Ok([x] + r.value) else r)
  {
    if r.Ok? {
      assert (acc + [x]) + r.value == acc + ([x] + r.value);
    }
  }

  /** The filtering loop of `find_profiles`, stopping at the first error. */
  function Matching(ps: seq<OsProfile>, s: Selection, matchFn: (Selection, Profile) -> Result<bool, Error>, env: Env)
    : (r: Result<seq<OsProfile>, Error>)
    reads ps
    ensures r.Ok? ==> forall o :: o in r.value ==> o in ps
  {
    if ps == [] then Ok([])
    else
      var isNull :- NullTest(ps[0], env);
      if isNull then Matching(ps[1..], s, matchFn, env)
      else
        var keep :- matchFn(s, ps[0].Value());
        var rest :- Matching(ps[1..], s, matchFn, env);
        Ok(if keep then [ps[0]] + rest else rest)
  }

  /** The sort key `(o.os_name, o.os_version)`; the getters raise
      `KeyError` for a missing key. */
  function SortKey(o: OsProfile): Result<Key, Error>
    reads o
  {
    var name :- Attr(o.Value(), OsNameKey);
    var version :- Attr(o.Value(), OsVersionKey);
    Ok((name, version))
  }

  /** Every profile paired with its sort key, computed in list order. */
  function Keyed(ms: seq<OsProfile>): Result<seq<(Key, OsProfile)>, Error>
    reads set o | o in ms
  {
    if ms == [] then Ok([])
    else
      var key :- SortKey(ms[0]);
      var rest :- Keyed(ms[1..]);
      Ok([(key, ms[0])] + rest)
  }

  function Unkeyed(s: seq<(Key, OsProfile)>): (r: seq<OsProfile>)
    ensures |r| == |s| && forall i :: 0 <= i < |s| ==> r[i] == s[i].1
  {
    seq(|s|, i requires 0 <= i < |s| => s[i].1)
  }

  /** What `find_profiles` returns or raises. */
  function FindSpec(ps: seq<OsProfile>, s: Selection, matchFn: (Selection, Profile) -> Result<bool, Error>, env: Env)
    : Result<seq<OsProfile>, Error>
    reads ps
  {
    var m := Matching(ps, s, matchFn, env);
    if m.Err? then Err(m.error)
    else
      var keyed :- Keyed(m.value);
      Ok(Unkeyed(Sort(keyed)))
  }

  // ---------------------------------------------------------------------
  // What find_profiles returns

  /** A profile is among the matches exactly when it is listed, is not the
      null profile, and passes `match_fn`. */
  lemma {:induction false} MatchingMembers(ps: seq<OsProfile>, s: Selection,
                                           matchFn: (Selection, Profile) -> Result<bool, Error>, env: Env)
    requires Matching(ps, s, matchFn, env).Ok?
    ensures forall o :: o in Matching(ps, s, matchFn, env).value <==>
      o in ps && NullTest(o, env) == Ok(false) && matchFn(s, o.Value()) == Ok(true)
    decreases |ps|
  {
    if ps != [] {
      MatchingMembers(ps[1..], s, matchFn, env);
      assert forall o :: o in ps <==> o == ps[0] || o in ps[1..];
    }
  }

  /** Each profile paired with its own sort key, in order. */
  lemma {:induction false} KeyedPairs(ms: seq<OsProfile>)
    requires Keyed(ms).Ok?
    ensures |Keyed(ms).value| == |ms|
    ensures forall i :: 0 <= i < |ms| ==> SortKey(ms[i]).Ok? && Keyed(ms).value[i] == (SortKey(ms[i]).value, ms[i])
    decreases |ms|
  {
    if ms != [] {
      KeyedPairs(ms[1..]);
    }
  }

  /** The sort keys are computed for every match: `Keyed` fails exactly
      when some match lacks `os_name` or `os_version`. */
  lemma {:induction false} KeyedSucceeds(ms: seq<OsProfile>)
    ensures Keyed(ms).Ok? <==> forall o :: o in ms ==> OsNameKey in o.data && OsVersionKey in o.data
    decreases |ms|
  {
    if ms != [] {
      KeyedSucceeds(ms[1..]);
      assert forall o :: o in ms <==> o == ms[0] || o in ms[1..];
    }
  }

  lemma UnkeyedAppend(a: seq<(Key, OsProfile)>, b: seq<(Key, OsProfile)>)
    ensures Unkeyed(a + b) == Unkeyed(a) + Unkeyed(b)
  {
  }

  lemma {:induction false} UnkeyedInsert(s: seq<(Key, OsProfile)>, x: (Key, OsProfile))
    ensures multiset(Unkeyed(Insert(s, x))) == multiset(Unkeyed(s)) + multiset{x.1}
    decreases |s|
  {
    if s == [] {
    } else if !KeyLess(x.0, s[|s| - 1].0) {
      UnkeyedAppend(s, [x]);
    } else {
      var init, last := s[..|s| - 1], s[|s| - 1];
      assert s == init + [last];
      UnkeyedInsert(init, x);
      UnkeyedAppend(Insert(init, x), [last]);
      UnkeyedAppend(init, [last]);
    }
  }

  /** Sorting moves the profiles but loses or adds none. */
  lemma {:induction false} UnkeyedSort(xs: seq<(Key, OsProfile)>)
    ensures multiset(Unkeyed(Sort(xs))) == multiset(Unkeyed(xs))
    decreases |xs|
  {
    if xs != [] {
      var init, last := xs[..|xs| - 1], xs[|xs| - 1];
      assert xs == init + [last];
      UnkeyedSort(init);
      UnkeyedInsert(Sort(init), last);
      UnkeyedAppend(init, [last]);
    }
  }

  lemma UnkeyedKeyed(ms: seq<OsProfile>)
    requires Keyed(ms).Ok?
    ensures Unkeyed(Keyed(ms).value) == ms
  {
    KeyedPairs(ms);
  }

  /** `find_profiles` returns every match, as often as it is listed, and
      nothing else. */
  lemma FindSpecPermutation(ps: seq<OsProfile>, s: Selection,
                            matchFn: (Selection, Profile) -> Result<bool, Error>, env: Env)
    requires FindSpec(ps, s, matchFn, env).Ok?
    ensures Matching(ps, s, matchFn, env).Ok?
    ensures multiset(FindSpec(ps, s, matchFn, env).value) == multiset(Matching(ps, s, matchFn, env).value)
  {
    var ms := Matching(ps, s, matchFn, env).value;
    UnkeyedSort(Keyed(ms).value);
    UnkeyedKeyed(ms);
  }

  /** A profile is returned exactly when it is listed, is not the null
      profile and passes `match_fn`. */
  lemma FindSpecMembers(ps: seq<OsProfile>, s: Selection,
                        matchFn: (Selection, Profile) -> Result<bool, Error>, env: Env)
    requires FindSpec(ps, s, matchFn, env).Ok?
    ensures forall o :: o in FindSpec(ps, s, matchFn, env).value <==>
      o in ps && NullTest(o, env) == Ok(false) && matchFn(s, o.Value()) == Ok(true)
  {
    FindSpecPermutation(ps, s, matchFn, env);
    MatchingMembers(ps, s, matchFn, env);
    var r := FindSpec(ps, s, matchFn, env).value;
    var ms := Matching(ps, s, matchFn, env).value;
    forall o
      ensures o in r <==> o in ms
    {
      assert o in r <==> o in multiset(r);
      assert o in ms <==> o in multiset(ms);
    }
  }

  /** The result is ordered by `(os_name, os_version)`. */
  lemma FindSpecSorted(ps: seq<OsProfile>, s: Selection,
                       matchFn: (Selection, Profile) -> Result<bool, Error>, env: Env)
    requires FindSpec(ps, s, matchFn, env).Ok?
    ensures var r := FindSpec(ps, s, matchFn, env).value;
      && (forall i :: 0 <= i < |r| ==> SortKey(r[i]).Ok?)
      && (forall i, j :: 0 <= i < j < |r| ==> !KeyLess(SortKey(r[j]).value, SortKey(r[i]).value))
  {
    var ms := Matching(ps, s, matchFn, env).value;
    assert FindSpec(ps, s, matchFn, env) == Ok(Unkeyed(Sort(Keyed(ms).value)));
    SortedProfiles(ms);
  }

  /** The matches with their keys, sorted and stripped of the keys, are
      ordered by their own keys. */
  lemma SortedProfiles(ms: seq<OsProfile>)
    requires Keyed(ms).Ok?
    ensures var r := Unkeyed(Sort(Keyed(ms).value));
      && (forall i :: 0 <= i < |r| ==> SortKey(r[i]).Ok?)
      && (forall i, j :: 0 <= i < j < |r| ==> !KeyLess(SortKey(r[j]).value, SortKey(r[i]).value))
  {
    var ks := Keyed(ms).value;
    var sorted := Sort(ks);
    var r := Unkeyed(sorted);
    KeyedPairs(ms);
    SortSorted(ks);
    forall i | 0 <= i < |r|
      ensures SortKey(r[i]) == Ok(sorted[i].0)
    {
      assert sorted[i] in multiset(ks);
      var j :| 0 <= j < |ks| && ks[j] == sorted[i];
    }
  }

  /** The query `find_profiles` runs when no match function is given. */
  function DefaultMatch(env: Env): (Selection, Profile) -> Result<bool, Error> {
    (s: Selection, p: Profile) => SelectProfile(s, p, env)
  }

  /** With the default match function, `find_profiles` returns exactly the
      listed profiles that are not null and meet every set criterion. */
  lemma FindDefaultMembers(ps: seq<OsProfile>, s: Selection, env: Env)
    requires FindSpec(ps, s, DefaultMatch(env), env).Ok?
    ensures forall o :: o in FindSpec(ps, s, DefaultMatch(env), env).value <==>
      o in ps && !IsNullProfile(o.Value(), env) && Satisfies(s, o.Value())
  {
    FindSpecMembers(ps, s, DefaultMatch(env), env);
    forall o | o in ps
      ensures NullTest(o, env) == Ok(false) && DefaultMatch(env)(s, o.Value()) == Ok(true)
              <==> !IsNullProfile(o.Value(), env) && Satisfies(s, o.Value())
    {
      SelectProfileMeaning(s, o.Value(), env);
    }
  }
}
