/** The boot entry keys of boom/bootloader.py: `ENTRY_KEYS` and their order,
    the `BOOM_ENTRY_*` names, `KEY_MAP` / `MAP_KEY` between those names and
    entry attribute names, and `_transform_key` between attribute names and
    the keys written in BLS files. */
module EntryKeys {
  import opened Wrappers
  import opened PyStr

  datatype EntryKey = Title | MachineId | Version | Linux | Efi | Initrd | Options | Devicetree

  /** `ENTRY_KEYS`, the order in which fields are serialised. */
  const EntryKeyOrder: seq<EntryKey> := [Title, MachineId, Version, Linux, Efi, Initrd, Options, Devicetree]

  /** The `BOOM_ENTRY_*` name of a key. */
  function KeyName(k: EntryKey): string {
    match k
    case Title => "BOOM_ENTRY_TITLE"
    case MachineId => "BOOM_ENTRY_MACHINE_ID"
    case Version => "BOOM_ENTRY_VERSION"
    case Linux => "BOOM_ENTRY_LINUX"
    case Efi => "BOOM_ENTRY_EFI"
    case Initrd => "BOOM_ENTRY_INITRD"
    case Options => "BOOM_ENTRY_OPTIONS"
    case Devicetree => "BOOM_ENTRY_DEVICETREE"
  }

  /** `KEY_MAP`: the entry attribute that exposes a key. */
  function AttrName(k: EntryKey): string {
    match k
    case Title => "title"
    case MachineId => "machine_id"
    case Version => "version"
    case Linux => "linux"
    case Efi => "efi"
    case Initrd => "initrd"
    case Options => "options"
    case Devicetree => "devicetree"
  }

  /** `MAP_KEY`, the reverse of `KEY_MAP`; `None` where the dictionary has no
      entry (the source then raises `KeyError`). */
  function MapKey(attr: string): (r: Option<EntryKey>)
    ensures r.Some? ==> AttrName(r.value) == attr
  {
    if attr == "title" then Some(Title)
    else if attr == "machine_id" then Some(MachineId)
    else if attr == "version" then Some(Version)
    else if attr == "linux" then Some(Linux)
    else if attr == "efi" then Some(Efi)
    else if attr == "initrd" then Some(Initrd)
    else if attr == "options" then Some(Options)
    else if attr == "devicetree" then Some(Devicetree)
    else None
  }

  /** The key whose `BOOM_ENTRY_*` name is `name`, if any. */
  function KeyOfName(name: string): (r: Option<EntryKey>)
    ensures r.Some? ==> KeyName(r.value) == name
  {
    if name == "BOOM_ENTRY_TITLE" then Some(Title)
    else if name == "BOOM_ENTRY_MACHINE_ID" then Some(MachineId)
    else if name == "BOOM_ENTRY_VERSION" then Some(Version)
    else if name == "BOOM_ENTRY_LINUX" then Some(Linux)
    else if name == "BOOM_ENTRY_EFI" then Some(Efi)
    else if name == "BOOM_ENTRY_INITRD" then Some(Initrd)
    else if name == "BOOM_ENTRY_OPTIONS" then Some(Options)
    else if name == "BOOM_ENTRY_DEVICETREE" then Some(Devicetree)
    else None
  }

  /** `_transform_key`: a name holding `_` has every `_` turned into `-`;
      otherwise a name holding `-` has every `-` turned into `_`. */
  function TransformKey(name: string): string {
    if '_' in name then MapChar(name, '_', '-')
    else if '-' in name then MapChar(name, '-', '_')
    else name
  }

  /** The key as written in a BLS entry file. */
  function BlsKey(k: EntryKey): string {
    TransformKey(AttrName(k))
  }

  // ---------------------------------------------------------------------
  // Lemmas

  /** `MAP_KEY` inverts `KEY_MAP` in both directions. */
  lemma MapKeyInvertsKeyMap(k: EntryKey, attr: string)
    ensures MapKey(AttrName(k)) == Some(k)
    ensures MapKey(attr) == Some(k) <==> attr == AttrName(k)
  {
  }

  /** The `BOOM_ENTRY_*` names are distinct and recognised. */
  lemma KeyOfNameInvertsKeyName(k: EntryKey, name: string)
    ensures KeyOfName(KeyName(k)) == Some(k)
    ensures KeyOfName(name) == Some(k) <==> name == KeyName(k)
  {
  }

  lemma MapCharMapChar(s: string, a: char, b: char)
    requires a !in s
    ensures MapChar(MapChar(s, b, a), a, b) == s
  {
    var r := MapChar(MapChar(s, b, a), a, b);
    assert forall i :: 0 <= i < |s| ==> r[i] == s[i];
  }

  /** `_transform_key` undoes itself on every name that does not mix `_`
      and `-`; a name holding both comes back with every separator as `_`. */
  lemma TransformKeyInvolution(name: string)
    ensures !('_' in name && '-' in name) ==> TransformKey(TransformKey(name)) == name
    ensures '_' in name && '-' in name ==>
      TransformKey(TransformKey(name)) == MapChar(MapChar(name, '_', '-'), '-', '_')
  {
    if '_' in name && '-' !in name {
      var t := MapChar(name, '_', '-');
      var i :| 0 <= i < |name| && name[i] == '_';
      assert t[i] == '-';
      assert '_' !in t;
      MapCharMapChar(name, '-', '_');
    } else if '-' in name && '_' !in name {
      var t := MapChar(name, '-', '_');
      var i :| 0 <= i < |name| && name[i] == '-';
      assert t[i] == '_';
      MapCharMapChar(name, '_', '-');
    } else if '_' in name && '-' in name {
      var t := MapChar(name, '_', '-');
      assert '_' !in t;
      var i :| 0 <= i < |name| && name[i] == '_';
      assert t[i] == '-';
    }
  }

  lemma MapCharJoined(p: string, q: string, a: char, b: char)
    requires a !in p && a !in q && b !in p && b !in q
    ensures MapChar(p + [a] + q, a, b) == p + [b] + q
  {
    var s, r := p + [a] + q, MapChar(p + [a] + q, a, b);
    assert forall i :: 0 <= i < |s| ==> r[i] == (p + [b] + q)[i];
  }

  /** `machine_id` is the one attribute name whose BLS spelling differs. */
  lemma MachineIdToBls()
    ensures TransformKey("machine_id") == "machine-id"
  {
    assert "machine_id"[7] == '_';
    var p, q := "machine", "id";
    assert "machine_id" == p + ['_'] + q;
    assert "machine-id" == p + ['-'] + q;
    MapCharJoined(p, q, '_', '-');
  }

  lemma MachineIdFromBls()
    ensures TransformKey("machine-id") == "machine_id"
  {
    assert '_' !in "machine-id";
    assert "machine-id"[7] == '-';
    var p, q := "machine", "id";
    assert "machine_id" == p + ['_'] + q;
    assert "machine-id" == p + ['-'] + q;
    MapCharJoined(p, q, '-', '_');
  }

  /** Reading a written key back: the reader transforms the BLS key and looks
      it up in `MAP_KEY`, recovering the entry key the writer started from. */
  lemma BlsKeyReadsBack(k: EntryKey)
    ensures MapKey(TransformKey(BlsKey(k))) == Some(k)
    ensures BlsKey(k) == (if k == MachineId then "machine-id" else AttrName(k))
  {
    if k == MachineId {
      MachineIdToBls();
      MachineIdFromBls();
    } else {
      var a := AttrName(k);
      assert '_' !in a && '-' !in a by {
        assert forall i :: 0 <= i < |a| ==> a[i] != '_' && a[i] != '-';
      }
      MapKeyInvertsKeyMap(k, a);
    }
  }

  /** A BLS key is a non-empty name without blanks. */
  lemma BlsKeyShape(k: EntryKey)
    ensures BlsKey(k) != [] && ' ' !in BlsKey(k) && '\n' !in BlsKey(k)
  {
    BlsKeyReadsBack(k);
    var b := if k == MachineId then "machine-id" else AttrName(k);
    NoBlankInName(b);
  }

  lemma NoBlankInName(b: string)
    requires b in {"title", "machine-id", "version", "linux", "efi", "initrd", "options", "devicetree"}
    ensures b != [] && ' ' !in b && '\n' !in b
  {
    forall i | 0 <= i < |b| ensures b[i] != ' ' && b[i] != '\n' {
    }
  }
}
