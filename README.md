# boom boot entries and OS profiles, in Dafny

This project models the in-memory core of boom, a manager for Boot Loader
Specification "Type #1" boot entries. Those are small `key value` files under
`loader/entries`. The model covers the two modules `boom/bootloader.py` and
`boom/osprofile.py`, and proves properties of them.

- **OS profiles** (`Profiles`, `OsProfiles`). An `OsProfile` is a validated
  record of `BOOM_OS_*` keys.
  - It gets defaults for its kernel, initramfs, root-option and options
    templates.
  - Its `os_id` is a SHA-1 of short name, version and version id unless
    one is given.
  - Its guarded setters refuse a template that refers to the key it
    defines.
  - There is a distinguished null profile.
  - `select_profile`, `find_profiles` (filter, then sort by
    `(os_name, os_version)`) and `get_os_profile_by_id` work on the
    loaded profiles.
  - `make_format_regexes` (`FormatRegexes`) turns an options template
    into per-word regular expressions. It expands compound keys
    recursively.
- **Boot parameters** (`Params`, `Recovery`). `BootParams` holds a
  version, a root device, an LVM logical volume and a Btrfs subvolume
  path or id, plus options to add and to delete.
  - Construction validates its arguments.
  - Every setter bumps a `generation` counter.
  - `__str` lists the set values.
  - `from_entry` recovers parameters from an entry's options line by
    matching it against the profile's regular expressions.
- **Boot entries** (`Templating`, `Serialization`, `BootEntries`,
  `Entries`). A `BootEntry` holds:
  - literal fields;
  - an optional profile and boot parameters;
  - a dirty flag, a cached boot id and the path it was last read from
    or written to.

  Its getters fill profile templates through the table-driven
  placeholder engine `_apply_format`. `options` appends `add_opts`, then
  drops words matched by `del_opts`. `root_opts` joins the LVM and Btrfs
  parts.
  - The entry serialises to one BLS line per set field, in
    `ENTRY_KEYS` order.
  - `boot_id` is the SHA-1 of that text.
  - The file name is built from the machine id, the boot id and the
    version.
  - Entries can be read from a file, built from data or built from
    keywords.
  - Entries can be written, updated and deleted against a file system
    modelled as a map from paths to contents.
  - A list of loaded entries supports add-if-absent, remove and find.
- **Key names** (`EntryKeys`). `KEY_MAP`, `MAP_KEY` and `_transform_key`
  translate between `BOOM_ENTRY_*` names, attribute names and BLS keys.

How the model is built:

- **Pure value layer.** Pure Python logic becomes datatypes, functions
  and lemmas.
- **Classes.** Objects the source updates in place become classes with
  `modifies` clauses: `BootParams`, `OsProfile`, `BootEntry`, the
  profile store, the entry list and the file system.
- **Loops.** Each loop of the source is a method proved equal to the
  function that specifies it.
- **Outside code as parameters.** The code these two files call outside
  themselves is bundled in one `Env` value (`Externals`):
  - the `FMT_*` key names and the `FORMAT_KEYS` order;
  - SHA-1;
  - `re.search` and `re.match`.

  `parse_name_value` and `blank_or_comment` are a `LineParser`
  parameter. The profile that `match_os_profile` would find is a `probe`
  parameter. `get_os_profile_by_id` is a lookup function parameter.
- **Python behaviour.** `PyStr` states the Python string behaviour the
  code relies on: `split()`, `replace`, `rstrip` with a character set,
  `startswith` and `in`. `Sorting` holds a stable insertion sort
  standing for `list.sort`.

## Model

| member | source | states |
|---|---|---|
| EntryKeys.MapKeyInvertsKeyMap | boom/bootloader.py:101-125 | `MAP_KEY` is the inverse of `KEY_MAP`: it maps each attribute name back to its key, and an attribute name maps to a key exactly when it is that key's name |
| EntryKeys.KeyOfNameInvertsKeyName | boom/bootloader.py:67-83 | the `BOOM_ENTRY_*` names are distinct, and each name is recognised as exactly its own key |
| EntryKeys.TransformKeyInvolution | boom/bootloader.py:805-826 | `_transform_key` undoes itself on every name that does not hold both `_` and `-`; on a name holding both, two applications turn every separator into `_` |
| EntryKeys.MachineIdToBls | boom/bootloader.py:805-826 | `machine_id` is written to disk as `machine-id` |
| EntryKeys.MachineIdFromBls | boom/bootloader.py:805-826 | `machine-id` read from disk becomes `machine_id` |
| EntryKeys.BlsKeyReadsBack | boom/bootloader.py:1288-1294 | the reader's `_transform_key` followed by `MAP_KEY` recovers the key the writer spelled; only `machine_id` is spelled differently on disk |
| EntryKeys.BlsKeyShape | boom/bootloader.py:893-902 | every BLS key written is non-empty and holds no blank or newline |
| Profiles.KnownPart | boom/osprofile.py:593-632 | splitting a profile dictionary keeps exactly the `BOOM_OS_*` keys, with their values |
| Profiles.ExtraPart | boom/osprofile.py:593-632 | the rest of the dictionary: every key that is not a `BOOM_OS_*` name, with its value |
| Profiles.FillDefaults | boom/osprofile.py:607-610 | the defaults loop adds each `_DEFAULT_KEYS` key that is missing, with its default, and overwrites nothing present |
| Profiles.FirstMissing | boom/osprofile.py:612-616 | a key reported missing is listed, is not `BOOM_OS_ID`, and is absent |
| Profiles.FirstMissingNone | boom/osprofile.py:612-616 | when nothing is reported, every listed key except the identifier is present |
| Profiles.NoneMissing | boom/osprofile.py:607-616 | after defaults, nothing is missing exactly when every key without a default (name, short name, version, version id, uname pattern) was supplied |
| Profiles.SomeMissing | boom/osprofile.py:607-616 | a key reported missing after defaults is one without a default that the caller did not supply |
| Profiles.CheckDataSucceeds | boom/osprofile.py:607-626 | validation succeeds exactly when every key without a default is present; otherwise the error names one that is absent; the ROOT_OPTS error cannot occur |
| Profiles.CheckDataContents | boom/osprofile.py:607-626 | validated data holds every key but possibly the identifier: supplied values unchanged, defaults where missing |
| Profiles.FromKnownSucceeds | boom/osprofile.py:593-632 | building from keyed data fails exactly when a key without a default is missing, with the `missing` error for one of them |
| Profiles.FromKnownContents | boom/osprofile.py:593-632 | a built profile holds every key and the caller's extra keys; supplied values are kept and defaults fill the rest; `os_id` is the given one, or else the digest of short name, version and version id |
| Profiles.FromDataSucceeds | boom/osprofile.py:593-632 | `__from_data(m)`, which `OsProfile(profile_data=m)` runs for a non-empty `m`, fails exactly when `m` lacks a `BOOM_OS_*` key that has no default; the error names such a key |
| Profiles.FromDataContents | boom/osprofile.py:593-632 | a profile `__from_data` builds from a dictionary `m` keeps every `BOOM_OS_*` value of `m`, fills defaults, keeps the other keys of `m` as extra data, and has the `os_id` of `m` or the generated one |
| Profiles.IdentityData | boom/osprofile.py:711-724 | the identity stage of the keyword constructor stores short name, version and version id whenever it succeeds |
| Profiles.NullProfileShape | boom/osprofile.py:716-720 | the null profile is recognised by `_is_null_profile`, holds every key, and has empty identity keys |
| Profiles.NewProfileOutcome | boom/osprofile.py:709-728 | the keyword constructor fails exactly when some but not all of the four identity arguments are empty; when all four are empty it builds the null profile |
| Profiles.NewProfileContents | boom/osprofile.py:709-728 | with all four identity arguments, the profile holds them, the five defaults, no uname pattern, and the generated `os_id` |
| Profiles.NewProfileNullness | boom/osprofile.py:151-170 | a constructed profile counts as null exactly when all four identity arguments are empty, or when its generated id collides with the digest of the empty string |
| Profiles.Attr | boom/osprofile.py:926-999 | the profile getters read `_profile_data` directly: they succeed exactly when the key is present, with its value |
| Profiles.SetPropertyOutcome | boom/osprofile.py:1001-1086 | a property setter fails exactly when the value holds the placeholder its key forbids; on success only that key changes, and a complete profile stays complete |
| Profiles.SetPropertyAcceptsTemplate | boom/osprofile.py:1001-1068 | a guarded setter accepts a template exactly when the template has no placeholder for the forbidden key |
| Profiles.SetItemOutcome | boom/osprofile.py:504-535 | `__setitem__` raises `TypeError` for a non-string key and `ValueError` for a name outside `OS_PROFILE_KEYS`; it fails exactly then or when the value holds the bare forbidden key name; on success only the named key changes |
| Profiles.SetItemStricterThanSetter | boom/osprofile.py:504-535 | whatever the property setter refuses, `__setitem__` refuses too, and when `__setitem__` accepts, both store the same thing |
| Profiles.SetItemRefusesBareName | boom/osprofile.py:520-524 | the two checks differ: the bare key name is accepted by the property setter and refused by `__setitem__` |
| Profiles.SelectProfileMeaning | boom/osprofile.py:247-280 | `select_profile` accepts exactly the non-null profiles that meet every set criterion: `os_id` as a prefix, the others exactly |
| Profiles.SelectProfileSkipsNull | boom/osprofile.py:259-260 | the null profile is never selected |
| Profiles.SelectProfileNoCriteria | boom/osprofile.py:247-280 | with no criteria, every complete profile except the null one is selected |
| Profiles.SelectProfileMonotone | boom/osprofile.py:247-280 | unsetting criteria never loses a selected profile |
| Profiles.SelectProfileErrors | boom/osprofile.py:275-279 | on a profile holding every key, the only errors come from the undefined attributes `os_initramfs_pattern` and `os_options`, and setting either criterion never selects |
| Profiles.SelectProfileMissingUname | boom/osprofile.py:271-272 | a uname criterion on a profile without a uname pattern never selects, and raises `KeyError` for it once the earlier criteria pass |
| Profiles.AllKeysListed | boom/osprofile.py:81-93 | `OS_PROFILE_KEYS` lists every profile key |
| Profiles.ProfileKeySlices | boom/osprofile.py:110-113 | the required keys are the first eight of `OS_PROFILE_KEYS` and the root keys the next two |
| OsProfiles.OsProfile.Init | boom/osprofile.py:627-633 | a new profile object holds the given data, with the given dirty flag |
| OsProfiles.OsProfile.MarkDirty | boom/osprofile.py:564-577 | `_dirty` sets the dirty flag and changes nothing else |
| OsProfiles.OsProfile.GenerateOsId | boom/osprofile.py:579-591 | `_generate_os_id` stores the digest of short name + version + version id as `BOOM_OS_ID` and changes nothing else |
| OsProfiles.OsProfile.SetProperty | boom/osprofile.py:1001-1086 | the guarded setters, in place: on success the profile becomes the setter's result and is dirty; on failure it and its flag are unchanged |
| OsProfiles.OsProfile.SetItem | boom/osprofile.py:504-535 | `__setitem__` in place: the profile becomes the result, or is unchanged on error; the dirty flag is never touched |
| OsProfiles.OsProfile.BlankKeys | boom/osprofile.py:716-720 | the null-profile loop sets each listed key to the empty string |
| OsProfiles.OsProfile.AssignKeys | boom/osprofile.py:725-726 | the defaults loop of `__init__` assigns each default, overwriting |
| OsProfiles.OsProfile.SetIdentity | boom/osprofile.py:711-726 | the identity assignments of `__init__`: the null profile when all four are empty, the error when some are, the identity and the defaults otherwise |
| OsProfiles.OsProfile.MakeFormatRegexes | boom/osprofile.py:795-887 | `make_format_regexes` on the object computes `FormatRegexes` of its data: the pairs, or `RecursionError` when a template expands into itself |
| OsProfiles.BlankFromContents | boom/osprofile.py:716-720 | after the blanking loop the listed keys are empty and the others are kept |
| OsProfiles.BlankAll | boom/osprofile.py:716-720 | blanking every key of `OS_PROFILE_KEYS` leaves only empty values |
| OsProfiles.FillFromDefaults | boom/osprofile.py:607-610 | the filling loop over `_DEFAULT_KEYS` is `FillDefaults` |
| OsProfiles.AssignFromDefaults | boom/osprofile.py:725-726 | the assigning loop over `_DEFAULT_KEYS` installs every default |
| OsProfiles.DefaultTableShape | boom/osprofile.py:116-122 | `_DEFAULT_KEYS` holds the kernel, initramfs, LVM2, Btrfs and options defaults |
| OsProfiles.ProfileDict.FillDefaultsIn | boom/osprofile.py:607-610 | the defaults loop writes into the caller's dictionary: its `BOOM_OS_*` part becomes `FillDefaults` of what it was, the other keys are kept |
| OsProfiles.RefilledBuildsSame | boom/osprofile.py:607-627 | building from the filled dictionary gives what building from the original gives, so filling in place changes no outcome |
| OsProfiles.RequiredKeysLoop | boom/osprofile.py:612-616 | the loop raises for the first missing required key, as `FirstMissing` says |
| OsProfiles.CheckDataSteps | boom/osprofile.py:607-626 | the validation steps of `__from_data` compute `CheckData` of the dictionary as passed, and leave the defaults written into it whatever the outcome |
| OsProfiles.NewFromData | boom/osprofile.py:593-633 | `__from_data` on the caller's dictionary `m`, as `OsProfile(profile_data=m)` runs it for a non-empty `m` (lines 704-705), fails exactly when `FromData` does, with its error; otherwise it is a new dirty object holding `FromData`'s profile; on both paths the caller's dictionary is left with the defaults filled in |
| OsProfiles.NewFromIdentity | boom/osprofile.py:669-729 | the keyword constructor fails exactly when `NewProfile` does, leaving the list alone; on success it is a new dirty object appended to the global list |
| OsProfiles.NewOsProfile | boom/osprofile.py:669-729 | `OsProfile(...)` takes the data path for a non-empty `profile_data` and the keyword path for an empty one, failing and succeeding as `ConstructProfile` says; the data path fills the caller's dictionary and leaves the global list alone, the keyword path leaves the dictionary untouched and appends the new profile |
| Profiles.EmptyDataBuildsNull | boom/osprofile.py:704-720 | `OsProfile(profile_data={})` is the null profile, because an empty dictionary is falsy, even though `__from_data` on it would raise |
| OsProfiles.ProfileStore.Load | boom/osprofile.py:182-205 | with no profile files, the loaded list is the null profile, indexed by its id |
| OsProfiles.ProfileStore.GetById | boom/osprofile.py:331-345 | `get_os_profile_by_id` returns the indexed profile, or `None` exactly when the id is unknown |
| OsProfiles.ProfileStore.FindProfiles | boom/osprofile.py:283-328 | `find_profiles` computes `FindSpec`: filter with `match_fn`, then sort by `(os_name, os_version)` |
| OsProfiles.Matching | boom/osprofile.py:320-324 | the filter returns only listed profiles |
| OsProfiles.MatchingMembers | boom/osprofile.py:320-324 | a profile is among the matches exactly when it is listed, is not null and passes `match_fn` |
| OsProfiles.KeyedSucceeds | boom/osprofile.py:326 | computing the sort keys fails exactly when some match lacks `os_name` or `os_version` |
| OsProfiles.KeyedPairs | boom/osprofile.py:326 | each match is paired with its own sort key, in order |
| OsProfiles.UnkeyedSort | boom/osprofile.py:326 | sorting moves profiles but loses or adds none |
| OsProfiles.FindSpecPermutation | boom/osprofile.py:283-328 | `find_profiles` returns a permutation of the matches |
| OsProfiles.FindSpecMembers | boom/osprofile.py:283-328 | a profile is returned exactly when it is listed, is not null and passes `match_fn` |
| OsProfiles.FindSpecSorted | boom/osprofile.py:326 | the result is ordered by `(os_name, os_version)` |
| OsProfiles.SortedProfiles | boom/osprofile.py:326 | the keyed matches, sorted and stripped of their keys, are ordered by their own keys |
| OsProfiles.FindDefaultMembers | boom/osprofile.py:283-328 | with the default `select_profile`, exactly the listed non-null profiles meeting every set criterion are returned |
| Sorting.SortSorted | boom/osprofile.py:326 | the stable sort standing for `list.sort` returns its input ordered by key |
| FormatRegexes.KeyRegex | boom/osprofile.py:821-827 | the keys captured by a single group get `(\S+)` or `(\d+)` |
| FormatRegexes.KeyExp | boom/osprofile.py:829-838 | exactly the compound keys have an expansion, and none of them is a simple captured key; each expansion is non-empty |
| FormatRegexes.Subst | boom/osprofile.py:855-882 | `_substitute_keys` either gives its pairs or fails, and the only failure is `RecursionError` |
| FormatRegexes.SubstituteKeys | boom/osprofile.py:855-882 | the loop of `_substitute_keys` computes `Subst`, where the keys being expanded on the call stack are carried along and meeting one of them again is `RecursionError` |
| FormatRegexes.MakeFormatRegexes | boom/osprofile.py:795-887 | the loop over the words of the template computes `FormatRegexes`, stopping at the first `RecursionError`; an empty template gives `[]` |
| FormatRegexes.PlainWordRegex | boom/osprofile.py:878-880 | a word holding no format key comes back as itself, with no key |
| FormatRegexes.SimpleKeyWord | boom/osprofile.py:865-869 | a word holding one simple key gives one pair: that key (or the preserved parent), with the capture group in place of every occurrence |
| FormatRegexes.SurroundedKeyWord | boom/osprofile.py:865-869 | text, one simple key and more text give one pair whose regex has the group between the two texts |
| FormatRegexes.SurroundedKeyTemplate | boom/osprofile.py:884-887 | a whole template that is one such word gives exactly that pair, keyed by the key |
| FormatRegexes.KernelDefaultRegex | boom/osprofile.py:116-122 | the default kernel template gives one pair capturing the version |
| FormatRegexes.InitramfsDefaultRegex | boom/osprofile.py:116-122 | the default initramfs template gives one pair capturing the version; the `.` before `img` stays a regex wildcard |
| FormatRegexes.FormatRegexesAppend | boom/osprofile.py:884-887 | the pairs of two blank-separated templates are the pairs of each, in word order; the join fails when either part fails |
| FormatRegexes.FormatRegexesLabelled | boom/osprofile.py:853-876 | when the expansion succeeds, every key reported is one captured by a single group or one of `preserve_keys` |
| FormatRegexes.LvmRootOptsCycle | boom/osprofile.py:855-876 | expanding a template whose only key is `lvm_root_opts`, when the LVM2 template is that same text, re-enters `lvm_root_opts` and fails with `RecursionError` |
| FormatRegexes.RootOptsLvm2SelfNesting | boom/osprofile.py:1040-1047 | the `root_opts_lvm2` setter accepts a template naming `%{lvm_root_opts}`, which it does not refuse, and `make_format_regexes` (lines 855-887) on that template then raises `RecursionError` |
| Params.NewParamsOutcome | boom/bootloader.py:333-411 | `BootParams(...)` fails exactly when the version is empty or both Btrfs selectors are given; otherwise it stores the arguments, with `/dev/<lv>` as the root device when only a logical volume is given; `has_lvm2` and `has_btrfs` hold exactly when their arguments are set |
| Params.NewBootParams | boom/bootloader.py:333-411 | the constructor with its property assignments: it fails exactly when `NewParams` does, with its error; otherwise a new object holding `NewParams`'s value, its generation counting the assignments made |
| Params.ParamsStrJoin | boom/bootloader.py:273-307 | `__str` is the version followed by `name=value` for each set value, in order, joined by `", "`, whenever no value ends in a comma or a blank (quoted or not) |
| Params.WordsEndClean | boom/bootloader.py:273-307 | under that condition no listed item ends in a comma or a blank, so `rstrip(", ")` only removes the final separator |
| Params.NewParamsLvmStr | boom/bootloader.py:389-392 | a logical volume without a root device prints as `version, root_device=/dev/<lv>, lvm_root_lv=<lv>` |
| Params.BootParams.Str | boom/bootloader.py:273-307 | `__str` on the object computes `ParamsStr` of its values |
| Params.ListFields | boom/bootloader.py:303-305 | the loop of `__str` over the optional attributes computes `Listed` |
| Params.BootParams.Defaults | boom/bootloader.py:240-271 | a new object holds the class defaults, at generation 0 |
| Params.BootParams.SetVersion | boom/bootloader.py:418-424 | the setter stores the version, changes nothing else, and adds exactly 1 to the generation |
| Params.BootParams.SetRootDevice | boom/bootloader.py:431-437 | the setter stores the root device, changes nothing else, and adds exactly 1 to the generation |
| Params.BootParams.SetLvmRootLv | boom/bootloader.py:444-450 | the setter stores the logical volume, changes nothing else, and adds exactly 1 to the generation |
| Params.BootParams.SetBtrfsSubvolPath | boom/bootloader.py:457-463 | the setter stores the subvolume path, changes nothing else, and adds exactly 1 to the generation |
| Params.BootParams.SetBtrfsSubvolId | boom/bootloader.py:470-476 | the setter stores the subvolume id, changes nothing else, and adds exactly 1 to the generation |
| Params.BootParams.SetAddOpts | boom/bootloader.py:483-489 | the setter stores the options to add, changes nothing else, and adds exactly 1 to the generation |
| Params.BootParams.SetDelOpts | boom/bootloader.py:496-501 | the setter stores the options to delete, changes nothing else, and adds exactly 1 to the generation |
| Params.SelectParamsMonotone | boom/bootloader.py:713-734 | unsetting criteria never rejects parameters that passed `select_params` |
| Options.Kept | boom/bootloader.py:1761-1788 | the words `del_opt` keeps are exactly the input words no delete spec matches |
| Options.KeptKept | boom/bootloader.py:1761-1788 | filtering twice keeps the same words as filtering once |
| Options.DelOptsWords | boom/bootloader.py:1775-1788 | the words of `del_opts`'s result are the input words no spec matches, in their order |
| Options.DelOptsMembers | boom/bootloader.py:1775-1788 | a word is in the result exactly when it was in the input and no delete spec matches it |
| Options.DelOptsIdempotent | boom/bootloader.py:1775-1788 | applying the same deletion twice equals applying it once |
| Options.WildcardDrops | boom/bootloader.py:1761-1773 | a `name=` spec drops the bare `name` and `name=` with any value |
| Options.ExactDrop | boom/bootloader.py:1761-1773 | a `name=value` spec drops that exact word and no other value of `name` |
| Options.AddOptsWords | boom/bootloader.py:1754-1759 | appending gives the words already there followed by the appended ones |
| Options.EditOptions | boom/bootloader.py:1790-1802 | `add_opts` then `del_opts`: the surviving old words then the surviving added words; every added word no spec matches survives; no word a spec matches survives |
| Templating.ApplyFormatLoop | boom/bootloader.py:1416-1587 | the loops of `_apply_format` compute `ApplyFormat`, and an error of a getter ends the evaluation |
| Templating.ApplyFormatPlain | boom/bootloader.py:1453-1587 | a pattern without `%` comes back unchanged |
| Templating.ApplyFormatOneKey | boom/bootloader.py:1563-1585 | on a pattern holding one key, every occurrence is replaced by that key's value when it has one, and kept verbatim when the value is `None` |
| Templating.TextThenKey | boom/bootloader.py:1563-1585 | literal text followed by one placeholder gives the text and the key's value, or the placeholder when the value is `None` |
| Templating.VmlinuzPattern | boom/bootloader.py:1817-1821 | `/vmlinuz-%{version}` gets the boot parameters' version when there are boot parameters, else the entry's, and stays verbatim when there is neither |
| Templating.TableMeaning | boom/bootloader.py:1542-1561 | the table of key specifications, with the `FMT_OS_NAME` entry repeated four times, means what `KeyValue` says, key by key |
| Templating.KeyAttrBp | boom/bootloader.py:1476-1507 | a `BootParams` source yields its attribute when there are boot parameters, else `None` |
| Templating.KeyAttrOsp | boom/bootloader.py:1476-1507 | a profile source yields its attribute when there is a profile, else `None` |
| Templating.KeyAttrUnprefixed | boom/bootloader.py:1499-1504 | an entry attribute is read only when no `BootParams` source applies first |
| Templating.RootOptsParts | boom/bootloader.py:1666-1685 | `root_opts` is empty without a profile or boot parameters, and re-entering it raises `RecursionError`; the LVM part is empty unless a logical volume is set, and the Btrfs part empty unless a subvolume is |
| Templating.RootOptsWords | boom/bootloader.py:1666-1685 | `root_opts` is the LVM part, the Btrfs part, or both joined by one blank; its words are those of the LVM part followed by those of the Btrfs part |
| Templating.OptionsWords | boom/bootloader.py:1747-1802 | the `options` words are the surviving words of the literal or templated options, then the surviving `add_opts`; a word is present exactly when it was in either and no `del_opts` spec matches it |
| Externals.RenderReplace | boom/bootloader.py:1585 | `str.replace` of one placeholder in a template substitutes exactly the matching placeholders and nothing else |
| Externals.RenderContains | boom/bootloader.py:1565 | a placeholder occurs in a template exactly when the template holds that placeholder |
| Serialization.SetFields | boom/bootloader.py:893 | the fields written are, in key order, those whose getter yields a non-empty value |
| Serialization.RecordsAreLines | boom/bootloader.py:893-902 | the BLS records are the lines of the set fields, each ending in a newline; a getter's error is the error of both |
| Serialization.EntryStrBls | boom/bootloader.py:858-913 | the BLS form adds no prefix, suffix or boot id record, and strips trailing newlines |
| Serialization.BlsText | boom/bootloader.py:1589-1611 | the BLS text is the lines of the set fields joined by newlines, without the boot id, and `boot_id` is the digest of that text |
| Serialization.BlsTextReadsBack | boom/bootloader.py:1284-1296 | the text splits back into its lines; each line splits at its first blank into the BLS key, which maps back to the field's key, and the field's value |
| Recovery.SetParam | boom/bootloader.py:570-578 | `setattr(bp, name, value)` never touches the option lists |
| Recovery.Unmatched | boom/bootloader.py:580-584 | `is_add` keeps exactly the words no regex matched |
| Recovery.Deleted | boom/bootloader.py:586-612 | `del_opts` is exactly the template regexes that `is_del` accepts |
| Recovery.MatchLoop | boom/bootloader.py:558-578 | the two loops of `from_entry` compute `MatchRegexes` |
| Recovery.RecoverParams | boom/bootloader.py:522-616 | `from_entry` as written computes `FromEntry` |
| Recovery.MatchRegexesMatched | boom/bootloader.py:558-578 | the matched words are those some regex of the template matches |
| Recovery.MatchRegexesFields | boom/bootloader.py:558-578 | attributes no regex names keep their values, and the root device is set once a `root_device` regex was seen |
| Recovery.FromEntryNoTemplate | boom/bootloader.py:550-552 | without an options template, or with one of no words, nothing is recovered (`None`) |
| Recovery.FromEntryResult | boom/bootloader.py:541-616 | recovered parameters: the entry's version unless a regex names it; nothing for attributes no regex names; a root device exactly when the template has a `root_device` regex; `add_opts` holds each unmatched word exactly once; `del_opts` holds the template regexes `is_del` accepts |
| BootEntries.SelectEntryMeaning | boom/bootloader.py:736-764 | `select_entry` accepts exactly when the profile is selected and the boot id prefix, title, version, machine id and `select_params` criteria that are set all hold |
| BootEntries.SelectEntryMonotone | boom/bootloader.py:736-764 | unsetting criteria never rejects an entry that passed |
| BootEntries.SelectEntryNoCriteria | boom/bootloader.py:736-764 | with no criteria, every entry passes except one with the null profile |
| BootEntries.FileHoldsEntryText | boom/bootloader.py:1914-1925 | the file `write_entry` writes is the `#OsIdentifier:` header, then the entry's text, then a newline; the boot id is the digest of that text |
| BootEntries.SplitLines | boom/bootloader.py:1130 | the lines `splitlines()` gives hold no line break |
| BootEntries.SplitLinesOfTerminated | boom/bootloader.py:1285-1286 | comment lines gathered with their line breaks and split again by `splitlines()` (line 1130) come back as they were |
| BootEntries.FileLines | boom/bootloader.py:1284 | iterating a file gives lines that join back to its text, each ending in its line break except possibly the last, with no break inside |
| BootEntries.CommentKeptWhole | boom/bootloader.py:1110-1143 | an entry that already has a profile keeps every comment line, identifier lines included |
| BootEntries.CommentProfile | boom/bootloader.py:1110-1143 | the profile changes only for an entry without one, and only to a profile named by an identifier in the comment |
| BootEntries.ReadLinesFields | boom/bootloader.py:1284-1301 | every field read comes from a line of the file naming it, and every kept comment belongs to a field read |
| BootEntries.DroppedCommentBreaksRead | boom/bootloader.py:1296-1301 | a comment without an `OsIdentifier` before a field is dropped, and the next comment line then makes the whole read fail with `TypeError` |
| BootEntries.CopyKnown | boom/bootloader.py:1216-1218 | the copy loop keeps exactly the listed keys the data names, with their values |
| BootEntries.CopyNamed | boom/bootloader.py:1254-1303 | the fields read from a file reach `__from_data` unchanged |
| BootEntries.PopIfSame | boom/bootloader.py:1235-1238 | `_pop_if_set` drops the field exactly when the getter's value equals the stored one; a getter's error is raised only when the key is present |
| BootEntries.PopTemplatedMeaning | boom/bootloader.py:1234-1252 | the four pops succeed exactly when every present templated field can be computed; they drop exactly the fields the templates already yield |
| BootEntries.FromDataKeeps | boom/bootloader.py:1184-1252 | `__from_data` requires a title and a kernel or EFI image; it keeps every literal field; given boot parameters are kept and override the version; the given profile wins over the probed one |
| Entries.FileSystem.constructor | boom/bootloader.py:1883-2003 | the file system starts as the given map from paths to contents |
| Entries.ParamsObject | boom/bootloader.py:544-616 | `from_entry` returns a new `BootParams` holding the recovered values |
| Entries.CopyFields | boom/bootloader.py:1216-1218 | the copy loop of `__from_data` computes `CopyKnown` |
| Entries.WriteFields | boom/bootloader.py:1917-1925 | the loop of `write_entry` over the set fields writes each field's comment, then its line |
| Entries.FormatEntry | boom/bootloader.py:858-913 | the loop of `__str` computes `EntryStr` |
| Entries.BootEntry.Blank | boom/bootloader.py:1317-1373 | a new entry holds the class defaults and the `osprofile` argument, and is valid |
| Entries.BootEntry.OsIdFromComment | boom/bootloader.py:1110-1143 | `__os_id_from_comment` returns the scanned comment and sets the profile as `ScanComment` says |
| Entries.BootEntry.ReadEntryLines | boom/bootloader.py:1284-1300 | the loop over the file's lines computes `ReadLines` |
| Entries.BootEntry.FromData | boom/bootloader.py:1184-1252 | `__from_data` fails with `FromDataSpec`'s error, or leaves the fields, profile and boot parameters `FromDataSpec` computes; the entry is dirty and valid, and a new `BootParams` is fresh |
| Entries.BootEntry.SetUpParams | boom/bootloader.py:1223-1252 | the boot-parameter stage of `__from_data` computes `ParamsStage` |
| Entries.BootEntry.AttachParams | boom/bootloader.py:1223-1229 | the given boot parameters (whose version replaces the stored one) or those `from_entry` recovers are attached |
| Entries.BootEntry.DropTemplated | boom/bootloader.py:1234-1252 | the pops run only with boot parameters, and compute `PopTemplated` |
| Entries.BootEntry.FromFile | boom/bootloader.py:1254-1315 | `__from_file` reads the lines of the file's text, each keeping its line break; it fails with the read's error, `__from_data`'s or the boot id's; it succeeds whenever the read and `__from_data` do and, for a file name of entry form, the boot id computes; on success it keeps the comments, the entry is clean, and the file is its last path |
| Entries.BootEntry.Loaded | boom/bootloader.py:1305-1315 | the end of `__from_file`: a file name that looks like an entry's makes it read the boot id, whose error is raised; otherwise it succeeds, and the entry becomes clean with the file as its last path |
| Entries.BootEntry.InitFields | boom/bootloader.py:1379-1410 | the keyword constructor: `ValueError` without a machine id; `AttributeError` for an empty title with a profile and `ValueError` without one; otherwise the title and machine id, the boot parameters, the given or probed profile, and a dirty entry |
| Entries.BootEntry.Dirty | boom/bootloader.py:1093-1108 | `_dirty` clears the cached boot id, sets the dirty flag and changes no value |
| Entries.BootEntry.BootId | boom/bootloader.py:1651-1663 | `boot_id` returns the digest of the current text; after a change of the boot parameters' generation it marks the entry dirty |
| Entries.BootEntry.SetField | boom/bootloader.py:1724-1875 | the field setters store the value, mark the entry dirty and clear the cached boot id |
| Entries.BootEntry.SetTitle | boom/bootloader.py:1704-1712 | an empty title raises (`ValueError` without a profile, `AttributeError` with one) and changes nothing; otherwise it is stored and the entry is dirty |
| Entries.BootEntry.SetBp | boom/bootloader.py:1629-1636 | the `bp` setter marks the entry dirty, attaches the object and records its generation |
| Entries.BootEntry.EntryPath | boom/bootloader.py:1878-1881 | `_entry_path` is `PathFor` the current values |
| Entries.BootEntry.WriteText | boom/bootloader.py:1914-1925 | the text written is `FileText` of the current values and comments |
| Entries.BootEntry.WriteEntry | boom/bootloader.py:1883-1943 | a clean entry without `force` changes nothing; otherwise the entry's text is stored at its path, the entry becomes clean with that path as its last path, and it is added to the loaded entries; errors leave the file system alone |
| Entries.BootEntry.Store | boom/bootloader.py:1939-1943 | after a write the entry remembers the path, becomes clean and is added to the loaded entries |
| Entries.BootEntry.UpdateEntry | boom/bootloader.py:1945-1981 | `update_entry` as written: the files after a write (or the skipped write), minus the last path when the entry's path is now another; it succeeds whenever the path computes and, for an entry that is written, its text computes and the list membership test does not raise; so a clean, unforced entry whose path moved to a free name is left with no file at either path |
| Entries.BootEntry.UnlinkMoved | boom/bootloader.py:1974-1981 | the old path is unlinked exactly when it differs from the entry's current path |
| Entries.BootEntry.UpdateEntryWritingFirst | boom/bootloader.py:1945-1970 | the documented update: on success the entry's last path is its path; a file it had is not lost; an entry that is dirty, forced, or whose boot parameters changed has its text at its path; the only file removed is the old path; it succeeds whenever the path and text compute and the list membership test does not raise |
| Entries.CleanMovedUpdateLosesEntry | boom/bootloader.py:1974-1981 | for a clean, unforced update whose path has moved, the old file is unlinked and nothing is written |
| Entries.BootEntry.DeleteEntry | boom/bootloader.py:1983-2005 | `delete_entry` raises `ValueError` when the file is absent and changes nothing; otherwise it removes the file, and a written or loaded entry also leaves the list |
| Entries.NewBootEntry | boom/bootloader.py:1317-1414 | `BootEntry(...)`: non-empty `entry_data` builds from data, else a non-empty `entry_file` from the file (succeeding whenever the read and `__from_data` do and the boot id computes for an entry-shaped name), else the keyword form; each with its errors and resulting state, as the stage it takes states |
| Entries.ParamsEditKeepsValid | boom/bootloader.py:1629-1663 | editing the attached boot parameters in place keeps the entry valid: the cached boot id is not trusted once the generation moves |
| Entries.Moved | boom/bootloader.py:1974-1981 | the path an update unlinks is the last path, and only when it differs from the new path |
| Entries.FirstEqual | boom/bootloader.py:948-965 | `in` and `remove` find the first entry that is the same object or `__eq__` to it, with nothing before it equal |
| Entries.FirstEqualSame | boom/bootloader.py:948-965 | an entry the list holds is found, whatever the boot ids, when no earlier comparison raises |
| Entries.Found | boom/bootloader.py:766-803 | `find_entries` returns at most the listed entries |
| Entries.FoundMembers | boom/bootloader.py:766-803 | the entries found are exactly the listed entries `select_entry` accepts |
| Entries.EntryList.constructor | boom/bootloader.py:639-649 | an empty list |
| Entries.EntryList.AddEntry | boom/bootloader.py:618-628 | `_add_entry` appends the entry exactly when no equal entry is present |
| Entries.AddedIsMember | boom/bootloader.py:618-628 | after `_add_entry`, the entry is in the list |
| Entries.EntryList.DelEntry | boom/bootloader.py:630-637 | `_del_entry` removes the first equal entry, and raises `ValueError` when there is none |
| Entries.EntryList.DropEntries | boom/bootloader.py:639-649 | `drop_entries` empties the list |
| Entries.EntryList.FindEntries | boom/bootloader.py:766-803 | `find_entries` over the loaded list computes `Found` for the selection, or for no criteria |

## Left out

- File I/O is a map from paths to contents (`FileSystem`). This covers `mkstemp`, `fdatasync`, `rename`, `chmod`, `unlink`, `listdir` and `stat`, so `OSError` paths and temporary files are not modelled. `load_entries`, `load_profiles`, `write_entries`, `write_profiles`, `write_profile`, `delete_profile`, `from_os_release*` and `check_bootloader` are not modelled: they only drive I/O.
- SHA-1, `re.search`/`re.match` and the `FMT_*`/`FORMAT_KEYS` constants of the `boom` package are parameters (`Env`). So are `parse_name_value` and `blank_or_comment` (`LineParser`). The `boom` package's `__init__` is not part of this model.
- `__match_os_profile`/`match_os_profile`, `match_options` and `match_uname_version`: the profile a probe would find is a parameter. `match_options` compares regex text with matched words, which has no contract to state.
- Host profiles (`__match_host_profile`, `find_host_profiles`) and `check_root_device` with `allow_no_dev` are not modelled: they call code outside these two files and the file system.
- `BootEntry.__getitem__`, `__setitem__`, `keys`, `values`, `items`, `__len__`, `__repr__`, `disp_boot_id` and the minimum-width helpers are not modelled. They only re-expose the modelled getters or need `_find_minimum_sha_prefix`, which is not part of this model.
- The `NEEDS` and `PRED_FN` entries of `_apply_format`'s table are not modelled: the `NEEDS` loop only continues its own loop, and no predicate is ever called.
- Recovery.FromEntryResult: `from_entry` builds `add_opts` through a Python `set`, whose order is not defined; the contract states the members and their uniqueness, not the order, and the model keeps the first occurrence of each word.
- The boot id cache is refreshed by `match_os_profile`, comparisons and selection as a side effect. The model computes boot ids from values and caches them only in `BootEntry.BootId`. The operand order of `==` is modelled only as far as `FirstEqual` states it.
- `str.splitlines()` is modelled as splitting on `"\n"` only (`SplitLines`). Other line separators are not modelled.
- OsProfiles.NewOsProfile: the `profile_file` argument, and the `ValueError` for passing it together with `profile_data` (boom/osprofile.py:699-706), are not modelled: reading a profile file is file I/O.
- `_add_entry` on a list that was never loaded calls `load_entries`. The model starts from a given list.
- Entries.EntryList.FindEntries: on an empty list the source first calls `load_entries()` (boom/bootloader.py:787-788); the model searches the list it holds, since loading is file I/O.
- `__from_file`'s file name test against `BOOT_ENTRIES_PATTERN` is the boolean `nameMatches`, and the file's contents are its `text`, split into lines that keep their line breaks (`FileLines`).
- Setter arguments of `None` are not modelled: strings are never `None`, and an empty string stands for the falsy value where the source tests truthiness.
- `make_format_regexes` recursion carries the set of compound keys being expanded. Expanding one of them again is an endless recursion in Python, which ends in `RecursionError`; the model returns that error at the re-entry. Python's stack depth limit itself is not modelled: a finite expansion is never cut short.
- Entries.BootEntry.DeleteEntry: the `except` branch refers to the undefined name `entry_path`. Its `NameError` is not modelled because unlinking a path that exists does not fail in the model.
- Entries.Found: states only the length bound. Its meaning is given by `Entries.FoundMembers`.

## Findings

| source | as written | input that shows it | evidently intended | confidence | as-written member | corrected member |
|---|---|---|---|---|---|---|
| boom/bootloader.py:1945-1981 | `update_entry` remembers the last path, calls `write_entry` (which returns at once for a clean entry, lines 1905-1906), then unlinks the last path whenever `_entry_path` differs from it | an entry loaded from a file whose name is not its computed entry path (or whose boot parameters were then edited in place), updated without `force`: nothing is written, and the file it came from is unlinked, so the entry has no file on disk | the docstring: the old file is unlinked only "once the new data has been successfully written" | not executed | Entries.CleanMovedUpdateLosesEntry | Entries.BootEntry.UpdateEntryWritingFirst |
