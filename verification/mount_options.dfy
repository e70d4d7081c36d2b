/**
 The mount options of a FUSE mount: a flat record of intentions, one setter per
 field, and the three renderings the mount paths hand to the operating system
 (src/mount_options.rs).
 */
module MountOptions {
  import opened Optional
  import opened Decimal
  import opened Text
  import opened OptionReader

  /** Rust's `u32`: user and group ids and the root mode. */
  type u32 = x: int | 0 <= x < 0x1_0000_0000

  /** Rust's `RawFd`, an `i32` on Linux. */
  type RawFd = x: int | -0x8000_0000 <= x < 0x8000_0000

  /** Root mode used when none is set, printed as the decimal number 40000. */
  const DefaultRootmode: u32 := 40000

  /** File system name used by the unprivileged rendering when none is set. */
  const DefaultFsName: string := "fuse"

  datatype MountOptions = MountOptions(
    uid: Option<u32>,
    gid: Option<u32>,
    fsName: Option<string>,
    rootmode: Option<u32>,
    allowRoot: bool,
    allowOther: bool,
    readOnly: Option<bool>,
    nonempty: bool,
    defaultPermissions: bool,
    dontMask: bool,
    noOpenSupport: bool,
    noOpenDirSupport: bool,
    handleKillpriv: bool,
    writeBack: bool,
    forceReaddirPlus: bool,
    customOptions: Option<string>
  )

  /** `MountOptions::default()`: every option unset, every flag off. */
  function Default(): MountOptions {
    MountOptions(None, None, None, None, false, false, None, false,
                 false, false, false, false, false, false, false, None)
  }

  /** The sixteen fields, named so that laws can quantify over them. */
  datatype Field =
    | Uid | Gid | FsName | Rootmode | AllowRoot | AllowOther | ReadOnly | Nonempty
    | DefaultPermissions | DontMask | NoOpenSupport | NoOpenDirSupport
    | HandleKillpriv | WriteBack | ForceReaddirPlus | CustomOptions

  /** What a field holds, by kind. */
  datatype Value =
    | Number(n: Option<u32>)
    | Text(t: Option<string>)
    | Flag(b: bool)
    | MaybeFlag(m: Option<bool>)

  function Get(o: MountOptions, f: Field): Value {
    match f
    case Uid => Number(o.uid)
    case Gid => Number(o.gid)
    case FsName => Text(o.fsName)
    case Rootmode => Number(o.rootmode)
    case AllowRoot => Flag(o.allowRoot)
    case AllowOther => Flag(o.allowOther)
    case ReadOnly => MaybeFlag(o.readOnly)
    case Nonempty => Flag(o.nonempty)
    case DefaultPermissions => Flag(o.defaultPermissions)
    case DontMask => Flag(o.dontMask)
    case NoOpenSupport => Flag(o.noOpenSupport)
    case NoOpenDirSupport => Flag(o.noOpenDirSupport)
    case HandleKillpriv => Flag(o.handleKillpriv)
    case WriteBack => Flag(o.writeBack)
    case ForceReaddirPlus => Flag(o.forceReaddirPlus)
    case CustomOptions => Text(o.customOptions)
  }

  /** One call of a fluent setter, with its argument. */
  datatype Setter =
    | SetUid(id: u32)
    | SetGid(id: u32)
    | SetFsName(name: string)
    | SetRootmode(mode: u32)
    | SetAllowRoot(flag: bool)
    | SetAllowOther(flag: bool)
    | SetReadOnly(flag: bool)
    | SetNonempty(flag: bool)
    | SetDefaultPermissions(flag: bool)
    | SetDontMask(flag: bool)
    | SetNoOpenSupport(flag: bool)
    | SetNoOpenDirSupport(flag: bool)
    | SetHandleKillpriv(flag: bool)
    | SetWriteBack(flag: bool)
    | SetForceReaddirPlus(flag: bool)
    | SetCustomOptions(text: string)

  /** The field a setter writes. */
  function FieldOf(s: Setter): Field {
    match s
    case SetUid(_) => Uid
    case SetGid(_) => Gid
    case SetFsName(_) => FsName
    case SetRootmode(_) => Rootmode
    case SetAllowRoot(_) => AllowRoot
    case SetAllowOther(_) => AllowOther
    case SetReadOnly(_) => ReadOnly
    case SetNonempty(_) => Nonempty
    case SetDefaultPermissions(_) => DefaultPermissions
    case SetDontMask(_) => DontMask
    case SetNoOpenSupport(_) => NoOpenSupport
    case SetNoOpenDirSupport(_) => NoOpenDirSupport
    case SetHandleKillpriv(_) => HandleKillpriv
    case SetWriteBack(_) => WriteBack
    case SetForceReaddirPlus(_) => ForceReaddirPlus
    case SetCustomOptions(_) => CustomOptions
  }

  /** The value a setter leaves in its field: optional fields become set. */
  function Stored(s: Setter): Value {
    match s
    case SetUid(id) => Number(Some(id))
    case SetGid(id) => Number(Some(id))
    case SetFsName(name) => Text(Some(name))
    case SetRootmode(mode) => Number(Some(mode))
    case SetReadOnly(flag) => MaybeFlag(Some(flag))
    case SetCustomOptions(text) => Text(Some(text))
    case SetAllowRoot(flag) => Flag(flag)
    case SetAllowOther(flag) => Flag(flag)
    case SetNonempty(flag) => Flag(flag)
    case SetDefaultPermissions(flag) => Flag(flag)
    case SetDontMask(flag) => Flag(flag)
    case SetNoOpenSupport(flag) => Flag(flag)
    case SetNoOpenDirSupport(flag) => Flag(flag)
    case SetHandleKillpriv(flag) => Flag(flag)
    case SetWriteBack(flag) => Flag(flag)
    case SetForceReaddirPlus(flag) => Flag(flag)
  }

  /** A setter call: it overwrites its own field and nothing else (see the lemmas below). */
  function Apply(o: MountOptions, s: Setter): MountOptions {
    match s
    case SetUid(id) => o.(uid := Some(id))
    case SetGid(id) => o.(gid := Some(id))
    case SetFsName(name) => o.(fsName := Some(name))
    case SetRootmode(mode) => o.(rootmode := Some(mode))
    case SetAllowRoot(flag) => o.(allowRoot := flag)
    case SetAllowOther(flag) => o.(allowOther := flag)
    case SetReadOnly(flag) => o.(readOnly := Some(flag))
    case SetNonempty(flag) => o.(nonempty := flag)
    case SetDefaultPermissions(flag) => o.(defaultPermissions := flag)
    case SetDontMask(flag) => o.(dontMask := flag)
    case SetNoOpenSupport(flag) => o.(noOpenSupport := flag)
    case SetNoOpenDirSupport(flag) => o.(noOpenDirSupport := flag)
    case SetHandleKillpriv(flag) => o.(handleKillpriv := flag)
    case SetWriteBack(flag) => o.(writeBack := flag)
    case SetForceReaddirPlus(flag) => o.(forceReaddirPlus := flag)
    case SetCustomOptions(text) => o.(customOptions := Some(text))
  }

  /** A setter call stores its value in its own field. */
  lemma ApplyWritesField(o: MountOptions, s: Setter)
    ensures Get(Apply(o, s), FieldOf(s)) == Stored(s)
  {
    match s
    case SetUid(_) =>
    case SetGid(_) =>
    case SetFsName(_) =>
    case SetRootmode(_) =>
    case SetAllowRoot(_) =>
    case SetAllowOther(_) =>
    case SetReadOnly(_) =>
    case SetNonempty(_) =>
    case SetDefaultPermissions(_) =>
    case SetDontMask(_) =>
    case SetNoOpenSupport(_) =>
    case SetNoOpenDirSupport(_) =>
    case SetHandleKillpriv(_) =>
    case SetWriteBack(_) =>
    case SetForceReaddirPlus(_) =>
    case SetCustomOptions(_) =>
  }

  /** A setter call leaves each other field as it was. */
  lemma ApplyKeepsField(o: MountOptions, s: Setter, f: Field)
    requires f != FieldOf(s)
    ensures Get(Apply(o, s), f) == Get(o, f)
  {
    match s
    case SetUid(_) =>
    case SetGid(_) =>
    case SetFsName(_) =>
    case SetRootmode(_) =>
    case SetAllowRoot(_) =>
    case SetAllowOther(_) =>
    case SetReadOnly(_) =>
    case SetNonempty(_) =>
    case SetDefaultPermissions(_) =>
    case SetDontMask(_) =>
    case SetNoOpenSupport(_) =>
    case SetNoOpenDirSupport(_) =>
    case SetHandleKillpriv(_) =>
    case SetWriteBack(_) =>
    case SetForceReaddirPlus(_) =>
    case SetCustomOptions(_) =>
  }

  /** A setter call leaves every other field as it was. */
  lemma ApplyKeepsOtherFields(o: MountOptions, s: Setter)
    ensures forall f :: f != FieldOf(s) ==> Get(Apply(o, s), f) == Get(o, f)
  {
    forall f | f != FieldOf(s) ensures Get(Apply(o, s), f) == Get(o, f) {
      ApplyKeepsField(o, s, f);
    }
  }

  /** A chain of setter calls, applied left to right. */
  function ApplyAll(o: MountOptions, setters: seq<Setter>): MountOptions
    decreases |setters|
  {
    if |setters| == 0 then o
    else Apply(ApplyAll(o, setters[..|setters| - 1]), setters[|setters| - 1])
  }

  // ---------------------------------------------------------------------
  // Linux and unprivileged option strings
  // ---------------------------------------------------------------------

  /** The bare flag tokens, in the order the renderers test them. */
  const FlagNames: seq<string> := ["allow_root", "allow_other", "ro", "default_permissions"]

  /** Whether the renderers emit flag `FlagNames[i]`; `ro` only for an explicit `true`. */
  predicate FlagOn(o: MountOptions, i: nat)
    requires i < |FlagNames|
  {
    match i
    case 0 => o.allowRoot
    case 1 => o.allowOther
    case 2 => o.readOnly == Some(true)
    case _ => o.defaultPermissions
  }

  /** Position of a token in `FlagNames`, or -1 when it is not a flag name. */
  function Rank(t: string): int {
    if t == "allow_root" then 0
    else if t == "allow_other" then 1
    else if t == "ro" then 2
    else if t == "default_permissions" then 3
    else -1
  }

  /**
   The flag tokens pushed after the valued tokens: `allow_root`,
   `allow_other`, `ro`, `default_permissions`, each only when its option is on.
   */
  function FlagTokens(o: MountOptions): seq<string> {
    (if o.allowRoot then ["allow_root"] else [])
    + (if o.allowOther then ["allow_other"] else [])
    + (if o.readOnly == Some(true) then ["ro"] else [])
    + (if o.defaultPermissions then ["default_permissions"] else [])
  }

  /** A flag sequence: flag names only, each at most once, in the order of `FlagNames`. */
  predicate IsOrderedFlags(r: seq<string>) {
    && (forall k :: 0 <= k < |r| ==> 0 <= Rank(r[k]) && r[k] == FlagNames[Rank(r[k])])
    && (forall j, k :: 0 <= j < k < |r| ==> Rank(r[j]) < Rank(r[k]))
  }

  /**
   The flag tokens are ordered flag names, and flag `FlagNames[i]` is among
   them exactly when its option is on.
   */
  lemma FlagTokensSpec(o: MountOptions)
    ensures IsOrderedFlags(FlagTokens(o))
    ensures forall i :: 0 <= i < |FlagNames| ==> (FlagNames[i] in FlagTokens(o) <==> FlagOn(o, i))
  {
    var a := if o.allowRoot then ["allow_root"] else [];
    var b := if o.allowOther then ["allow_other"] else [];
    var c := if o.readOnly == Some(true) then ["ro"] else [];
    var d := if o.defaultPermissions then ["default_permissions"] else [];
    var r := FlagTokens(o);
    assert r == a + b + c + d;
    assert |r| <= 4;
    forall k | 0 <= k < |r| ensures 0 <= Rank(r[k]) && r[k] == FlagNames[Rank(r[k])] {
      assert r[k] in a || r[k] in b || r[k] in c || r[k] in d;
    }
    forall j, k | 0 <= j < k < |r| ensures Rank(r[j]) < Rank(r[k]) {
      RanksIncrease(a, b, c, d, j, k);
    }
    forall i | 0 <= i < |FlagNames| ensures FlagNames[i] in r <==> FlagOn(o, i) {
      assert FlagNames[i] in r <==> FlagNames[i] in a || FlagNames[i] in b
                                     || FlagNames[i] in c || FlagNames[i] in d;
    }
  }

  lemma RanksIncrease(a: seq<string>, b: seq<string>, c: seq<string>, d: seq<string>, j: nat, k: nat)
    requires a == [] || a == ["allow_root"]
    requires b == [] || b == ["allow_other"]
    requires c == [] || c == ["ro"]
    requires d == [] || d == ["default_permissions"]
    requires j < k < |a + b + c + d|
    ensures Rank((a + b + c + d)[j]) < Rank((a + b + c + d)[k])
  {
    var r := a + b + c + d;
    // The rank of an element grows with the block it comes from.
    assert forall m :: 0 <= m < |r| ==>
      (m < |a| ==> Rank(r[m]) == 0)
      && (|a| <= m < |a + b| ==> Rank(r[m]) == 1)
      && (|a + b| <= m < |a + b + c| ==> Rank(r[m]) == 2)
      && (|a + b + c| <= m ==> Rank(r[m]) == 3);
  }

  /** `user_id`, `group_id` and `rootmode`, with the process ids standing in for unset ids. */
  function IdTokens(o: MountOptions, procUid: u32, procGid: u32): seq<string> {
    [ KeyValue("user_id", NatToString(o.uid.UnwrapOr(procUid))),
      KeyValue("group_id", NatToString(o.gid.UnwrapOr(procGid))),
      KeyValue("rootmode", NatToString(o.rootmode.UnwrapOr(DefaultRootmode))) ]
  }

  /** The tokens of the Linux string before the custom tail. */
  function LinuxTokens(o: MountOptions, fd: RawFd, procUid: u32, procGid: u32): seq<string> {
    [KeyValue("fd", IntToString(fd))] + IdTokens(o, procUid, procGid) + FlagTokens(o)
  }

  /** The tokens of the unprivileged string before the custom tail. */
  function UnprivilegedTokens(o: MountOptions, procUid: u32, procGid: u32): seq<string> {
    IdTokens(o, procUid, procGid)
    + [KeyValue("fsname", o.fsName.UnwrapOr(DefaultFsName))]
    + FlagTokens(o)
  }

  /** The custom text, verbatim, after one more comma. */
  function WithCustom(joined: string, custom: Option<string>): string {
    match custom
    case Some(c) => joined + "," + c
    case None => joined
  }

  /** The tokens a comma reader finds in the custom tail: none when it is unset. */
  function CustomTokens(custom: Option<string>): seq<string> {
    match custom
    case Some(c) => Split(c, ',')
    case None => []
  }

  lemma NumberHasNoComma(key: string, n: nat)
    requires ',' !in key
    ensures ',' !in KeyValue(key, NatToString(n))
  {
    var d := NatToString(n);
    assert ',' !in d by {
      forall k | 0 <= k < |d| ensures d[k] != ',' {
        assert IsDigit(d[k]);
      }
    }
  }

  lemma FdHasNoComma(fd: RawFd)
    ensures ',' !in KeyValue("fd", IntToString(fd))
  {
    var d := IntToString(fd);
    assert ',' !in d by {
      forall k | 0 <= k < |d| ensures d[k] != ',' {
        if k > 0 {
          assert IsDigit(d[k]);
        }
      }
    }
  }

  lemma IdTokensHaveNoComma(o: MountOptions, procUid: u32, procGid: u32)
    ensures NoneContains(IdTokens(o, procUid, procGid), ',')
  {
    NumberHasNoComma("user_id", o.uid.UnwrapOr(procUid));
    NumberHasNoComma("group_id", o.gid.UnwrapOr(procGid));
    NumberHasNoComma("rootmode", o.rootmode.UnwrapOr(DefaultRootmode));
  }

  lemma FlagTokensHaveNoComma(o: MountOptions)
    ensures NoneContains(FlagTokens(o), ',')
  {
    var fs := FlagTokens(o);
    FlagTokensSpec(o);
    forall i | 0 <= i < |fs| ensures ',' !in fs[i] {
      assert fs[i] in FlagNames;
    }
  }

  lemma ValuedTokensHaveNoComma(o: MountOptions, fd: RawFd, procUid: u32, procGid: u32)
    ensures NoneContains(LinuxTokens(o, fd, procUid, procGid), ',')
  {
    FdHasNoComma(fd);
    IdTokensHaveNoComma(o, procUid, procGid);
    FlagTokensHaveNoComma(o);
  }

  lemma ReadAsJoined(tokens: seq<string>, custom: Option<string>)
    requires |tokens| >= 1 && NoneContains(tokens, ',')
    ensures Split(WithCustom(Join(tokens, ','), custom), ',') == tokens + CustomTokens(custom)
  {
    SplitJoin(tokens, ',');
    if custom.Some? {
      SplitAtSeparator(Join(tokens, ','), custom.value, ',');
    }
  }

  /** The Linux option string `build(fd)`. */
  function BuildLinux(o: MountOptions, fd: RawFd, procUid: u32, procGid: u32): string {
    WithCustom(Join(LinuxTokens(o, fd, procUid, procGid), ','), o.customOptions)
  }

  /** The unprivileged option string `build_with_unprivileged()`. */
  function BuildUnprivileged(o: MountOptions, procUid: u32, procGid: u32): string {
    WithCustom(Join(UnprivilegedTokens(o, procUid, procGid), ','), o.customOptions)
  }

  /**
   A comma reader finds in the Linux string exactly the derived tokens
   followed by the pieces of the custom text.
   */
  lemma LinuxStringTokens(o: MountOptions, fd: RawFd, procUid: u32, procGid: u32)
    ensures Split(BuildLinux(o, fd, procUid, procGid), ',')
            == LinuxTokens(o, fd, procUid, procGid) + CustomTokens(o.customOptions)
  {
    ValuedTokensHaveNoComma(o, fd, procUid, procGid);
    ReadAsJoined(LinuxTokens(o, fd, procUid, procGid), o.customOptions);
  }

  /**
   The same for the unprivileged string. The file system name is not
   escaped, so this holds only when the name itself has no comma.
   */
  lemma UnprivilegedStringTokens(o: MountOptions, procUid: u32, procGid: u32)
    requires ',' !in o.fsName.UnwrapOr(DefaultFsName)
    ensures Split(BuildUnprivileged(o, procUid, procGid), ',')
            == UnprivilegedTokens(o, procUid, procGid) + CustomTokens(o.customOptions)
  {
    IdTokensHaveNoComma(o, procUid, procGid);
    FlagTokensHaveNoComma(o);
    ReadAsJoined(UnprivilegedTokens(o, procUid, procGid), o.customOptions);
  }

  // ---------------------------------------------------------------------
  // FreeBSD nmount entries
  // ---------------------------------------------------------------------

  /** An nmount entry: `str_opt` carries a value, `null_opt` carries none. */
  type Entry = (string, Option<string>)

  const FsTypeEntry: Entry := ("fstype", Some("fusefs"))
  const FromEntry: Entry := ("from", Some("/dev/fuse"))

  /**
   The FreeBSD `build()` entry list: the two mandatory entries, then the
   flags it supports, then the subtype. Everything else is not rendered.
   */
  function BuildFreeBsd(o: MountOptions): (r: seq<Entry>)
    ensures |r| == 2 + (if o.allowOther then 1 else 0) + (if o.defaultPermissions then 1 else 0)
                     + (if o.fsName.Some? then 1 else 0)
    ensures r[0] == FsTypeEntry && r[1] == FromEntry
    ensures ("allow_other", None) in r <==> o.allowOther
    ensures ("default_permissions", None) in r <==> o.defaultPermissions
    ensures forall name :: ("subtype=", Some(name)) in r <==> o.fsName == Some(name)
    ensures forall k :: 2 <= k < |r| ==> r[k].0 != "fstype" && r[k].0 != "from"
    ensures o.fsName.Some? ==> r[|r| - 1] == ("subtype=", o.fsName)
    ensures o.allowOther && o.defaultPermissions ==>
              r[2] == ("allow_other", None) && r[3] == ("default_permissions", None)
  {
    [FsTypeEntry, FromEntry]
    + (if o.allowOther then [("allow_other", None)] else [])
    + (if o.defaultPermissions then [("default_permissions", None)] else [])
    + (match o.fsName case Some(name) => [("subtype=", Some(name))] case None => [])
  }
}
