/**
 Laws of the three renderers of src/mount_options.rs: the fixed token order,
 when each flag appears, the verbatim custom tail, which fields reach each
 rendering, how the unprivileged string differs from the Linux one, and what
 a reader of the option string gets back.
 */
module RenderLaws {
  import opened Optional
  import opened Decimal
  import opened Text
  import opened OptionReader
  import opened MountOptions
  import SetterLaws

  // ---------------------------------------------------------------------
  // Token layout
  // ---------------------------------------------------------------------

  lemma FlagTokensAreBare(o: MountOptions)
    ensures forall i :: 0 <= i < |FlagTokens(o)| ==> '=' !in FlagTokens(o)[i]
  {
    var fs := FlagTokens(o);
    FlagTokensSpec(o);
    forall i | 0 <= i < |fs| ensures '=' !in fs[i] {
      assert fs[i] in FlagNames;
    }
  }

  /**
   The Linux tokens are `fd`, `user_id`, `group_id`, `rootmode`, in that order,
   then only flag names, each at most once and in the fixed order
   `allow_root`, `allow_other`, `ro`, `default_permissions`.
   */
  lemma LinuxTokenOrder(o: MountOptions, fd: RawFd, procUid: u32, procGid: u32)
    ensures var ts := LinuxTokens(o, fd, procUid, procGid);
      && 4 <= |ts| <= 8
      && KeyOf(ts[0]) == "fd" && KeyOf(ts[1]) == "user_id"
      && KeyOf(ts[2]) == "group_id" && KeyOf(ts[3]) == "rootmode"
      && (forall k :: 4 <= k < |ts| ==> ts[k] in FlagNames)
      && (forall j, k :: 4 <= j < k < |ts| ==> Rank(ts[j]) < Rank(ts[k]))
  {
    var ts := LinuxTokens(o, fd, procUid, procGid);
    FlagTokensSpec(o);
    KeyValueReadBack("fd", IntToString(fd));
    KeyValueReadBack("user_id", NatToString(o.uid.UnwrapOr(procUid)));
    KeyValueReadBack("group_id", NatToString(o.gid.UnwrapOr(procGid)));
    KeyValueReadBack("rootmode", NatToString(o.rootmode.UnwrapOr(DefaultRootmode)));
    assert ts[4..] == FlagTokens(o);
    forall k | 4 <= k < |ts| ensures ts[k] in FlagNames {
      assert ts[k] == FlagTokens(o)[k - 4];
    }
    forall j, k | 4 <= j < k < |ts| ensures Rank(ts[j]) < Rank(ts[k]) {
      assert ts[j] == FlagTokens(o)[j - 4] && ts[k] == FlagTokens(o)[k - 4];
    }
  }

  /** The valued tokens before the Linux flags are never flag names. */
  lemma LinuxValuedTokensAreNotFlags(o: MountOptions, fd: RawFd, procUid: u32, procGid: u32, i: nat)
    requires i < |FlagNames|
    ensures FlagNames[i] !in [KeyValue("fd", IntToString(fd))] + IdTokens(o, procUid, procGid)
  {
    assert '=' !in FlagNames[i];
    assert KeyValue("fd", IntToString(fd))[2] == '=';
    IdTokensAreNotFlags(o, procUid, procGid, i);
  }

  /** The valued tokens before the unprivileged flags are never flag names. */
  lemma UnprivilegedValuedTokensAreNotFlags(o: MountOptions, procUid: u32, procGid: u32, i: nat)
    requires i < |FlagNames|
    ensures FlagNames[i] !in IdTokens(o, procUid, procGid)
                            + [KeyValue("fsname", o.fsName.UnwrapOr(DefaultFsName))]
  {
    assert '=' !in FlagNames[i];
    assert KeyValue("fsname", o.fsName.UnwrapOr(DefaultFsName))[6] == '=';
    IdTokensAreNotFlags(o, procUid, procGid, i);
  }

  lemma IdTokensAreNotFlags(o: MountOptions, procUid: u32, procGid: u32, i: nat)
    requires i < |FlagNames|
    ensures FlagNames[i] !in IdTokens(o, procUid, procGid)
  {
    assert '=' !in FlagNames[i];
    assert KeyValue("user_id", NatToString(o.uid.UnwrapOr(procUid)))[7] == '=';
    assert KeyValue("group_id", NatToString(o.gid.UnwrapOr(procGid)))[8] == '=';
    assert KeyValue("rootmode", NatToString(o.rootmode.UnwrapOr(DefaultRootmode)))[8] == '=';
  }

  /**
   A flag token is in the Linux string exactly when its option is on or the
   custom text itself carries it; in particular `ro` needs `read_only` set to
   `true`, and both an explicit `false` and unset leave it out.
   */
  lemma LinuxFlagPresence(o: MountOptions, fd: RawFd, procUid: u32, procGid: u32, i: nat)
    requires i < |FlagNames|
    ensures FlagNames[i] in LinuxTokens(o, fd, procUid, procGid) <==> FlagOn(o, i)
    ensures FlagNames[i] in Split(BuildLinux(o, fd, procUid, procGid), ',')
            <==> FlagOn(o, i) || FlagNames[i] in CustomTokens(o.customOptions)
  {
    FlagTokensSpec(o);
    LinuxValuedTokensAreNotFlags(o, fd, procUid, procGid, i);
    LinuxStringTokens(o, fd, procUid, procGid);
  }

  /** The same flag rule for the unprivileged string. */
  lemma UnprivilegedFlagPresence(o: MountOptions, procUid: u32, procGid: u32, i: nat)
    requires i < |FlagNames|
    ensures FlagNames[i] in UnprivilegedTokens(o, procUid, procGid) <==> FlagOn(o, i)
    ensures ',' !in o.fsName.UnwrapOr(DefaultFsName) ==>
              (FlagNames[i] in Split(BuildUnprivileged(o, procUid, procGid), ',')
               <==> FlagOn(o, i) || FlagNames[i] in CustomTokens(o.customOptions))
  {
    FlagTokensSpec(o);
    UnprivilegedValuedTokensAreNotFlags(o, procUid, procGid, i);
    if ',' !in o.fsName.UnwrapOr(DefaultFsName) {
      UnprivilegedStringTokens(o, procUid, procGid);
    }
  }

  /** `ro` is emitted by both Linux renderers exactly for `read_only(true)`. */
  lemma ReadOnlyOnlyWhenTrue(o: MountOptions, fd: RawFd, procUid: u32, procGid: u32)
    ensures "ro" in LinuxTokens(o, fd, procUid, procGid) <==> o.readOnly == Some(true)
    ensures "ro" in UnprivilegedTokens(o, procUid, procGid) <==> o.readOnly == Some(true)
  {
    LinuxFlagPresence(o, fd, procUid, procGid, 2);
    UnprivilegedFlagPresence(o, procUid, procGid, 2);
  }

  // ---------------------------------------------------------------------
  // The unprivileged string against the Linux one
  // ---------------------------------------------------------------------

  /**
   The unprivileged tokens are the Linux tokens without the `fd` token and
   with `fsname=<name or fuse>` right after `rootmode`.
   */
  lemma UnprivilegedIsLinuxWithoutFd(o: MountOptions, fd: RawFd, procUid: u32, procGid: u32)
    ensures var linux := LinuxTokens(o, fd, procUid, procGid);
      UnprivilegedTokens(o, procUid, procGid)
      == linux[1..4] + [KeyValue("fsname", o.fsName.UnwrapOr(DefaultFsName))] + linux[4..]
  {
    var linux := LinuxTokens(o, fd, procUid, procGid);
    assert linux[1..4] == IdTokens(o, procUid, procGid);
    assert linux[4..] == FlagTokens(o);
  }

  /** The id tokens give no value to `fd` and `fsname`. */
  lemma IdTokensLookup(o: MountOptions, procUid: u32, procGid: u32, key: string)
    requires key == "fd" || key == "fsname"
    ensures Lookup(IdTokens(o, procUid, procGid), key) == None
  {
    var u := KeyValue("user_id", NatToString(o.uid.UnwrapOr(procUid)));
    var g := KeyValue("group_id", NatToString(o.gid.UnwrapOr(procGid)));
    var m := KeyValue("rootmode", NatToString(o.rootmode.UnwrapOr(DefaultRootmode)));
    KeyValueReadBack("user_id", NatToString(o.uid.UnwrapOr(procUid)));
    KeyValueReadBack("group_id", NatToString(o.gid.UnwrapOr(procGid)));
    KeyValueReadBack("rootmode", NatToString(o.rootmode.UnwrapOr(DefaultRootmode)));
    LookupSnoc([], u, key);
    assert [] + [u] == [u];
    LookupSnoc([u], g, key);
    LookupSnoc([u, g], m, key);
    assert [u] + [g] == [u, g] && [u, g] + [m] == IdTokens(o, procUid, procGid);
  }

  /** A reader finds an `fd` value in the Linux tokens and none in the unprivileged ones. */
  lemma FdOnlyInLinux(o: MountOptions, fd: RawFd, procUid: u32, procGid: u32)
    ensures Lookup(LinuxTokens(o, fd, procUid, procGid), "fd") == Some(IntToString(fd))
    ensures Lookup(UnprivilegedTokens(o, procUid, procGid), "fd") == None
    ensures Lookup(UnprivilegedTokens(o, procUid, procGid), "fsname")
            == Some(o.fsName.UnwrapOr(DefaultFsName))
  {
    LinuxFdLookup(o, fd, procUid, procGid);
    UnprivilegedLookups(o, procUid, procGid);
  }

  /** The descriptor is read back from the Linux tokens under `fd`. */
  lemma LinuxFdLookup(o: MountOptions, fd: RawFd, procUid: u32, procGid: u32)
    ensures Lookup(LinuxTokens(o, fd, procUid, procGid), "fd") == Some(IntToString(fd))
  {
    var ids := IdTokens(o, procUid, procGid);
    var fdToken := KeyValue("fd", IntToString(fd));
    FlagTokensAreBare(o);
    LookupBareFlags(FlagTokens(o), "fd");
    KeyValueReadBack("fd", IntToString(fd));
    IdTokensLookup(o, procUid, procGid, "fd");
    // The `fd` token, then tokens that give `fd` no value.
    LookupSnoc([], fdToken, "fd");
    assert [] + [fdToken] == [fdToken];
    LookupAppend([fdToken], ids, "fd");
    LookupAppend([fdToken] + ids, FlagTokens(o), "fd");
  }

  /** The unprivileged tokens give `fd` no value and `fsname` the name, or `fuse`. */
  lemma UnprivilegedLookups(o: MountOptions, procUid: u32, procGid: u32)
    ensures Lookup(UnprivilegedTokens(o, procUid, procGid), "fd") == None
    ensures Lookup(UnprivilegedTokens(o, procUid, procGid), "fsname")
            == Some(o.fsName.UnwrapOr(DefaultFsName))
  {
    var ids := IdTokens(o, procUid, procGid);
    var name := KeyValue("fsname", o.fsName.UnwrapOr(DefaultFsName));
    FlagTokensAreBare(o);
    LookupBareFlags(FlagTokens(o), "fd");
    LookupBareFlags(FlagTokens(o), "fsname");
    KeyValueReadBack("fsname", o.fsName.UnwrapOr(DefaultFsName));
    IdTokensLookup(o, procUid, procGid, "fd");
    IdTokensLookup(o, procUid, procGid, "fsname");
    // No `fd` token at all, one `fsname` token.
    LookupSnoc(ids, name, "fd");
    LookupSnoc(ids, name, "fsname");
    LookupAppend(ids + [name], FlagTokens(o), "fd");
    LookupAppend(ids + [name], FlagTokens(o), "fsname");
  }

  // ---------------------------------------------------------------------
  // Reading the Linux string back
  // ---------------------------------------------------------------------

  /** Two numbers give the same `key=` token exactly when they are equal. */
  lemma NumberTokenInjective(key: string, m: nat, n: nat)
    requires '=' !in key
    ensures KeyValue(key, NatToString(m)) == KeyValue(key, NatToString(n)) <==> m == n
  {
    if KeyValue(key, NatToString(m)) == KeyValue(key, NatToString(n)) {
      KeyValueReadBack(key, NatToString(m));
      KeyValueReadBack(key, NatToString(n));
      NatToStringInjective(m, n);
    }
  }

  /**
   The `user_id`, `group_id` and `rootmode` tokens of two option sets are the
   same exactly when the numbers they print are the same: distinct ids never
   render alike.
   */
  lemma IdTokensDistinguishIds(a: MountOptions, b: MountOptions, procUid: u32, procGid: u32)
    ensures IdTokens(a, procUid, procGid)[0] == IdTokens(b, procUid, procGid)[0]
            <==> a.uid.UnwrapOr(procUid) == b.uid.UnwrapOr(procUid)
    ensures IdTokens(a, procUid, procGid)[1] == IdTokens(b, procUid, procGid)[1]
            <==> a.gid.UnwrapOr(procGid) == b.gid.UnwrapOr(procGid)
    ensures IdTokens(a, procUid, procGid)[2] == IdTokens(b, procUid, procGid)[2]
            <==> a.rootmode.UnwrapOr(DefaultRootmode) == b.rootmode.UnwrapOr(DefaultRootmode)
  {
    NumberTokenInjective("user_id", a.uid.UnwrapOr(procUid), b.uid.UnwrapOr(procUid));
    NumberTokenInjective("group_id", a.gid.UnwrapOr(procGid), b.gid.UnwrapOr(procGid));
    NumberTokenInjective("rootmode", a.rootmode.UnwrapOr(DefaultRootmode),
                         b.rootmode.UnwrapOr(DefaultRootmode));
  }

  /**
   A reader of the Linux tokens gets the descriptor, the ids (the process ids
   where unset) and the root mode (40000 where unset) back as numbers.
   */
  lemma LinuxReadBack(o: MountOptions, fd: RawFd, procUid: u32, procGid: u32)
    ensures var ts := LinuxTokens(o, fd, procUid, procGid);
      && ReadInt(ts, "fd") == Some(fd as int)
      && ReadNumber(ts, "user_id") == Some(o.uid.UnwrapOr(procUid) as nat)
      && ReadNumber(ts, "group_id") == Some(o.gid.UnwrapOr(procGid) as nat)
      && ReadNumber(ts, "rootmode") == Some(o.rootmode.UnwrapOr(DefaultRootmode) as nat)
  {
    var ts := LinuxTokens(o, fd, procUid, procGid);
    LinuxLookups(o, fd, procUid, procGid);
    ReadIntOfText(ts, "fd", fd);
    ReadNumberOfText(ts, "user_id", o.uid.UnwrapOr(procUid));
    ReadNumberOfText(ts, "group_id", o.gid.UnwrapOr(procGid));
    ReadNumberOfText(ts, "rootmode", o.rootmode.UnwrapOr(DefaultRootmode));
  }

  lemma ReadNumberOfText(ts: seq<string>, key: string, n: nat)
    requires Lookup(ts, key) == Some(NatToString(n))
    ensures ReadNumber(ts, key) == Some(n)
  {
    ParseNatToString(n);
  }

  lemma ReadIntOfText(ts: seq<string>, key: string, i: int)
    requires Lookup(ts, key) == Some(IntToString(i))
    ensures ReadInt(ts, key) == Some(i)
  {
    ParseIntToString(i);
  }

  /** The text of each valued token, as a reader looks it up by key. */
  lemma LinuxLookups(o: MountOptions, fd: RawFd, procUid: u32, procGid: u32)
    ensures var ts := LinuxTokens(o, fd, procUid, procGid);
      && Lookup(ts, "fd") == Some(IntToString(fd))
      && Lookup(ts, "user_id") == Some(NatToString(o.uid.UnwrapOr(procUid)))
      && Lookup(ts, "group_id") == Some(NatToString(o.gid.UnwrapOr(procGid)))
      && Lookup(ts, "rootmode") == Some(NatToString(o.rootmode.UnwrapOr(DefaultRootmode)))
  {
    var fdText := IntToString(fd);
    var uidText := NatToString(o.uid.UnwrapOr(procUid));
    var gidText := NatToString(o.gid.UnwrapOr(procGid));
    var modeText := NatToString(o.rootmode.UnwrapOr(DefaultRootmode));
    var head := [KeyValue("fd", fdText), KeyValue("user_id", uidText),
                 KeyValue("group_id", gidText), KeyValue("rootmode", modeText)];
    var ts := LinuxTokens(o, fd, procUid, procGid);
    assert ts == head + FlagTokens(o);
    ValuedLookups(fdText, uidText, gidText, modeText);
    FlagTokensAreBare(o);
    forall key | key in {"fd", "user_id", "group_id", "rootmode"}
      ensures Lookup(ts, key) == Lookup(head, key)
    {
      LookupBareFlags(FlagTokens(o), key);
      LookupAppend(head, FlagTokens(o), key);
    }
  }

  /** Each of the four valued tokens is read back under its own key. */
  lemma ValuedLookups(fdText: string, uidText: string, gidText: string, modeText: string)
    ensures var head := [KeyValue("fd", fdText), KeyValue("user_id", uidText),
                         KeyValue("group_id", gidText), KeyValue("rootmode", modeText)];
      && Lookup(head, "fd") == Some(fdText)
      && Lookup(head, "user_id") == Some(uidText)
      && Lookup(head, "group_id") == Some(gidText)
      && Lookup(head, "rootmode") == Some(modeText)
  {
    var f := KeyValue("fd", fdText);
    var u := KeyValue("user_id", uidText);
    var g := KeyValue("group_id", gidText);
    var m := KeyValue("rootmode", modeText);
    KeyValueReadBack("fd", fdText);
    KeyValueReadBack("user_id", uidText);
    KeyValueReadBack("group_id", gidText);
    KeyValueReadBack("rootmode", modeText);
    assert [] + [f] == [f] && [f] + [u] == [f, u] && [f, u] + [g] == [f, u, g];
    assert [f, u, g] + [m] == [f, u, g, m];
    LookupSnoc([], f, "fd");
    LookupSnoc([f], u, "fd");
    LookupSnoc([f], u, "user_id");
    LookupSnoc([f, u], g, "fd");
    LookupSnoc([f, u], g, "user_id");
    LookupSnoc([f, u], g, "group_id");
    LookupSnoc([f, u, g], m, "fd");
    LookupSnoc([f, u, g], m, "user_id");
    LookupSnoc([f, u, g], m, "group_id");
    LookupSnoc([f, u, g], m, "rootmode");
  }

  /**
   In the whole Linux string a key's value comes from the custom tail when
   the tail gives it one (the tail is last, so it overrides), and from the
   derived tokens otherwise.
   */
  lemma LinuxStringLookup(o: MountOptions, fd: RawFd, procUid: u32, procGid: u32, key: string)
    ensures var custom := Lookup(CustomTokens(o.customOptions), key);
      Lookup(Split(BuildLinux(o, fd, procUid, procGid), ','), key)
      == (if custom.Some? then custom else Lookup(LinuxTokens(o, fd, procUid, procGid), key))
  {
    LinuxStringTokens(o, fd, procUid, procGid);
    LookupAppend(LinuxTokens(o, fd, procUid, procGid), CustomTokens(o.customOptions), key);
  }

  // ---------------------------------------------------------------------
  // The custom tail
  // ---------------------------------------------------------------------

  /**
   A custom text is appended verbatim after one comma to exactly the string
   the options would render without it.
   */
  lemma CustomOptionsAppended(o: MountOptions, c: string, fd: RawFd, procUid: u32, procGid: u32)
    requires o.customOptions == Some(c)
    ensures BuildLinux(o, fd, procUid, procGid)
            == BuildLinux(o.(customOptions := None), fd, procUid, procGid) + "," + c
    ensures BuildUnprivileged(o, procUid, procGid)
            == BuildUnprivileged(o.(customOptions := None), procUid, procGid) + "," + c
    ensures EndsWith(BuildLinux(o, fd, procUid, procGid), "," + c)
    ensures EndsWith(BuildUnprivileged(o, procUid, procGid), "," + c)
  {
    var bare := o.(customOptions := None);
    TokensIgnoreCustom(o, bare, fd, procUid, procGid);
    EndsWithAppended(BuildLinux(bare, fd, procUid, procGid), c);
    EndsWithAppended(BuildUnprivileged(bare, procUid, procGid), c);
  }

  lemma TokensIgnoreCustom(o: MountOptions, bare: MountOptions, fd: RawFd, procUid: u32, procGid: u32)
    requires bare == o.(customOptions := None)
    ensures LinuxTokens(o, fd, procUid, procGid) == LinuxTokens(bare, fd, procUid, procGid)
    ensures UnprivilegedTokens(o, procUid, procGid) == UnprivilegedTokens(bare, procUid, procGid)
  {
    assert FlagTokens(o) == FlagTokens(bare);
  }

  lemma EndsWithAppended(front: string, c: string)
    ensures EndsWith(front + "," + c, "," + c)
  {
    assert (front + "," + c)[|front|..] == "," + c;
  }

  /**
   Whatever order the setters were called in, the string ends with the last
   custom text given.
   */
  lemma LastCustomOptionsEndTheString(o: MountOptions, setters: seq<Setter>, c: string,
                                      fd: RawFd, procUid: u32, procGid: u32)
    requires SetterLaws.LastSet(setters, CustomOptions) == Some(Text(Some(c)))
    ensures EndsWith(BuildLinux(ApplyAll(o, setters), fd, procUid, procGid), "," + c)
  {
    SetterLaws.ApplyAllField(o, setters, CustomOptions);
    assert ApplyAll(o, setters).customOptions == Some(c);
    CustomOptionsAppended(ApplyAll(o, setters), c, fd, procUid, procGid);
  }

  // ---------------------------------------------------------------------
  // Which fields reach which rendering
  // ---------------------------------------------------------------------

  /**
   The Linux string depends only on `uid`, `gid`, `rootmode`, `allow_root`,
   `allow_other`, `read_only`, `default_permissions` and `custom_options`.
   */
  lemma LinuxReadsOnlyItsFields(a: MountOptions, b: MountOptions, fd: RawFd, procUid: u32, procGid: u32)
    requires a.uid == b.uid && a.gid == b.gid && a.rootmode == b.rootmode
    requires a.allowRoot == b.allowRoot && a.allowOther == b.allowOther
    requires a.readOnly == b.readOnly && a.defaultPermissions == b.defaultPermissions
    requires a.customOptions == b.customOptions
    ensures BuildLinux(a, fd, procUid, procGid) == BuildLinux(b, fd, procUid, procGid)
  {
    assert FlagTokens(a) == FlagTokens(b);
    assert LinuxTokens(a, fd, procUid, procGid) == LinuxTokens(b, fd, procUid, procGid);
  }

  /** The unprivileged string reads the same fields plus `fs_name`. */
  lemma UnprivilegedReadsOnlyItsFields(a: MountOptions, b: MountOptions, procUid: u32, procGid: u32)
    requires a.uid == b.uid && a.gid == b.gid && a.rootmode == b.rootmode && a.fsName == b.fsName
    requires a.allowRoot == b.allowRoot && a.allowOther == b.allowOther
    requires a.readOnly == b.readOnly && a.defaultPermissions == b.defaultPermissions
    requires a.customOptions == b.customOptions
    ensures BuildUnprivileged(a, procUid, procGid) == BuildUnprivileged(b, procUid, procGid)
  {
    assert FlagTokens(a) == FlagTokens(b);
    assert UnprivilegedTokens(a, procUid, procGid) == UnprivilegedTokens(b, procUid, procGid);
  }

  /** The FreeBSD entries read only `allow_other`, `default_permissions` and `fs_name`. */
  lemma FreeBsdReadsOnlyItsFields(a: MountOptions, b: MountOptions)
    requires a.allowOther == b.allowOther && a.defaultPermissions == b.defaultPermissions
    requires a.fsName == b.fsName
    ensures BuildFreeBsd(a) == BuildFreeBsd(b)
  {
  }

  /**
   What the FreeBSD `build()` promises, stated without building the list: the
   two mandatory entries, one entry per supported option that is set, each
   option's entry present exactly when it is set, `allow_other` before
   `default_permissions`, and the subtype last.
   */
  ghost predicate FreeBsdShape(o: MountOptions, r: seq<Entry>) {
    && |r| == 2 + (if o.allowOther then 1 else 0) + (if o.defaultPermissions then 1 else 0)
              + (if o.fsName.Some? then 1 else 0)
    && r[0] == FsTypeEntry && r[1] == FromEntry
    && (("allow_other", None) in r <==> o.allowOther)
    && (("default_permissions", None) in r <==> o.defaultPermissions)
    && (forall name :: ("subtype=", Some(name)) in r <==> o.fsName == Some(name))
    && (o.fsName.Some? ==> r[|r| - 1] == ("subtype=", o.fsName))
    && (o.allowOther && o.defaultPermissions ==>
          r[2] == ("allow_other", None) && r[3] == ("default_permissions", None))
  }

  /** The shape fixes the list: `BuildFreeBsd` is the one list that has it. */
  lemma FreeBsdEntriesExact(o: MountOptions, r: seq<Entry>)
    ensures FreeBsdShape(o, r) <==> r == BuildFreeBsd(o)
  {
    if FreeBsdShape(o, r) {
      FreeBsdShapeUnique(o, r);
    }
  }

  lemma FreeBsdShapeUnique(o: MountOptions, r: seq<Entry>)
    requires FreeBsdShape(o, r)
    ensures r == BuildFreeBsd(o)
  {
    if o.fsName.Some? {
      FlagEntriesUnique(o, r[..|r| - 1]);
      assert r == r[..|r| - 1] + [("subtype=", o.fsName)];
    } else {
      FlagEntriesUnique(o, r);
    }
  }

  /** The entries before the subtype hold the two flags exactly when they are set. */
  lemma FlagEntriesUnique(o: MountOptions, r: seq<Entry>)
    requires |r| == 2 + (if o.allowOther then 1 else 0) + (if o.defaultPermissions then 1 else 0)
    requires r[0] == FsTypeEntry && r[1] == FromEntry
    requires ("allow_other", None) in r <==> o.allowOther
    requires ("default_permissions", None) in r <==> o.defaultPermissions
    requires o.allowOther && o.defaultPermissions ==>
               r[2] == ("allow_other", None) && r[3] == ("default_permissions", None)
    ensures r == BuildFreeBsd(o.(fsName := None))
  {
    var ao: Entry := ("allow_other", None);
    var dp: Entry := ("default_permissions", None);
    if o.allowOther && !o.defaultPermissions {
      var k :| 0 <= k < |r| && r[k] == ao;
      assert k == 2;
      assert r == [FsTypeEntry, FromEntry, ao];
    } else if o.defaultPermissions && !o.allowOther {
      var k :| 0 <= k < |r| && r[k] == dp;
      assert k == 2;
      assert r == [FsTypeEntry, FromEntry, dp];
    } else if o.allowOther {
      assert r == [FsTypeEntry, FromEntry, ao, dp];
    } else {
      assert r == [FsTypeEntry, FromEntry];
    }
  }

  /** Fields the Linux string never shows; the kernel handshake reads them instead. */
  predicate NotInLinuxString(f: Field) {
    f in {FsName, Nonempty, DontMask, NoOpenSupport, NoOpenDirSupport,
          HandleKillpriv, WriteBack, ForceReaddirPlus}
  }

  /** Calling a setter of such a field leaves the Linux string unchanged. */
  lemma LinuxIgnoresHandshakeSetters(o: MountOptions, s: Setter, fd: RawFd, procUid: u32, procGid: u32)
    requires NotInLinuxString(FieldOf(s))
    ensures BuildLinux(Apply(o, s), fd, procUid, procGid) == BuildLinux(o, fd, procUid, procGid)
  {
    var r := Apply(o, s);
    ApplyKeepsField(o, s, Uid);
    ApplyKeepsField(o, s, Gid);
    ApplyKeepsField(o, s, Rootmode);
    ApplyKeepsField(o, s, AllowRoot);
    ApplyKeepsField(o, s, AllowOther);
    ApplyKeepsField(o, s, ReadOnly);
    ApplyKeepsField(o, s, DefaultPermissions);
    ApplyKeepsField(o, s, CustomOptions);
    LinuxReadsOnlyItsFields(r, o, fd, procUid, procGid);
  }

  // ---------------------------------------------------------------------
  // Concrete renderings
  // ---------------------------------------------------------------------

  lemma DefaultRootmodeText()
    ensures NatToString(DefaultRootmode) == "40000"
  {
    assert NatToString(4) == "4";
    assert NatToString(40) == "40";
    assert NatToString(400) == "400";
    assert NatToString(4000) == "4000";
  }

  lemma JoinFour(a: string, b: string, c: string, d: string, sep: char)
    ensures Join([a, b, c, d], sep) == a + [sep] + b + [sep] + c + [sep] + d
  {
    assert [c, d][1..] == [d];
    assert Join([c, d], sep) == c + [sep] + d;
    assert [b, c, d][1..] == [c, d];
    assert Join([b, c, d], sep) == b + [sep] + c + [sep] + d;
    assert [a, b, c, d][1..] == [b, c, d];
  }

  /** Appending `,key=value` to a string, with the key and `=` kept together. */
  lemma CommaKeyValue(front: string, key: string, keyEq: string, value: string)
    requires keyEq == [','] + key + "="
    ensures front + [','] + KeyValue(key, value) == front + keyEq + value
  {
  }

  lemma JoinValuedTokens(fdText: string, uidText: string, gidText: string, modeText: string)
    ensures Join([KeyValue("fd", fdText), KeyValue("user_id", uidText),
                  KeyValue("group_id", gidText), KeyValue("rootmode", modeText)], ',')
            == "fd=" + fdText + ",user_id=" + uidText + ",group_id=" + gidText + ",rootmode=" + modeText
  {
    var f := KeyValue("fd", fdText);
    var u := KeyValue("user_id", uidText);
    var g := KeyValue("group_id", gidText);
    var m := KeyValue("rootmode", modeText);
    JoinFour(f, u, g, m, ',');
    assert f == "fd=" + fdText;
    CommaKeyValue(f, "user_id", ",user_id=", uidText);
    var fu := f + [','] + u;
    CommaKeyValue(fu, "group_id", ",group_id=", gidText);
    var fug := fu + [','] + g;
    CommaKeyValue(fug, "rootmode", ",rootmode=", modeText);
  }

  /** Default options give exactly the four valued tokens and no trailing comma. */
  lemma DefaultLinuxString(fd: RawFd, procUid: u32, procGid: u32)
    ensures BuildLinux(Default(), fd, procUid, procGid)
            == "fd=" + IntToString(fd) + ",user_id=" + NatToString(procUid)
               + ",group_id=" + NatToString(procGid) + ",rootmode=40000"
  {
    var fdText, uidText, gidText := IntToString(fd), NatToString(procUid), NatToString(procGid);
    DefaultTokens(fd, procUid, procGid);
    WithoutCustomIsJoin(Default(), fd, procUid, procGid);
    JoinValuedTokens(fdText, uidText, gidText, "40000");
    var front := "fd=" + fdText + ",user_id=" + uidText + ",group_id=" + gidText;
    assert front + ",rootmode=" + "40000" == front + ",rootmode=40000";
  }

  lemma DefaultTokens(fd: RawFd, procUid: u32, procGid: u32)
    ensures LinuxTokens(Default(), fd, procUid, procGid)
            == [KeyValue("fd", IntToString(fd)), KeyValue("user_id", NatToString(procUid)),
                KeyValue("group_id", NatToString(procGid)), KeyValue("rootmode", "40000")]
  {
    DefaultRootmodeText();
    assert FlagTokens(Default()) == [];
  }

  lemma WithoutCustomIsJoin(o: MountOptions, fd: RawFd, procUid: u32, procGid: u32)
    requires o.customOptions == None
    ensures BuildLinux(o, fd, procUid, procGid) == Join(LinuxTokens(o, fd, procUid, procGid), ',')
  {
  }

  lemma ChainedHeadText()
    ensures Join([KeyValue("fd", "7"), KeyValue("user_id", "1000"),
                  KeyValue("group_id", "1000"), KeyValue("rootmode", "40000")], ',')
            == "fd=7,user_id=1000,group_id=1000,rootmode=40000"
  {
    JoinValuedTokens("7", "1000", "1000", "40000");
    assert "fd=" + "7" + ",user_id=" == "fd=7,user_id=";
    assert "fd=7,user_id=" + "1000" + ",group_id=" == "fd=7,user_id=1000,group_id=";
    assert "fd=7,user_id=1000,group_id=" + "1000" + ",rootmode="
           == "fd=7,user_id=1000,group_id=1000,rootmode=";
    assert "fd=7,user_id=1000,group_id=1000,rootmode=" + "40000"
           == "fd=7,user_id=1000,group_id=1000,rootmode=40000";
  }

  lemma ChainedFlagsText()
    ensures "fd=7,user_id=1000,group_id=1000,rootmode=40000" + [','] + "allow_other" + [','] + "ro"
            == "fd=7,user_id=1000,group_id=1000,rootmode=40000,allow_other,ro"
  {
  }

  /** The options built by `uid(1000).gid(1000).allow_other(true).read_only(true)`. */
  function ChainedOptions(): MountOptions {
    Apply(Apply(Apply(Apply(Default(), SetUid(1000)), SetGid(1000)), SetAllowOther(true)),
          SetReadOnly(true))
  }

  lemma ChainedTokens(procUid: u32, procGid: u32)
    ensures LinuxTokens(ChainedOptions(), 7, procUid, procGid)
            == [KeyValue("fd", "7"), KeyValue("user_id", "1000"),
                KeyValue("group_id", "1000"), KeyValue("rootmode", "40000")]
               + ["allow_other"] + ["ro"]
  {
    var o := ChainedOptions();
    assert o == Default().(uid := Some(1000), gid := Some(1000), allowOther := true,
                           readOnly := Some(true));
    DefaultRootmodeText();
    assert NatToString(1000) == "1000" by {
      assert NatToString(1) == "1" && NatToString(10) == "10" && NatToString(100) == "100";
    }
    assert IntToString(7) == "7";
    assert FlagTokens(o) == ["allow_other", "ro"];
  }

  lemma JoinTwoMore(head: seq<string>, a: string, b: string, sep: char)
    requires |head| >= 1
    ensures Join(head + [a] + [b], sep) == Join(head, sep) + [sep] + a + [sep] + b
  {
    JoinSnoc(head, a, sep);
    JoinSnoc(head + [a], b, sep);
  }

  /**
   `uid(1000).gid(1000).allow_other(true).read_only(true)` rendered with
   descriptor 7, whatever the process ids are.
   */
  lemma ChainedSettersLinuxString(procUid: u32, procGid: u32)
    ensures BuildLinux(ChainedOptions(), 7, procUid, procGid)
            == "fd=7,user_id=1000,group_id=1000,rootmode=40000,allow_other,ro"
  {
    var head := [KeyValue("fd", "7"), KeyValue("user_id", "1000"),
                 KeyValue("group_id", "1000"), KeyValue("rootmode", "40000")];
    WithoutCustomIsJoin(ChainedOptions(), 7, procUid, procGid);
    ChainedTokens(procUid, procGid);
    JoinTwoMore(head, "allow_other", "ro", ',');
    ChainedHeadText();
    ChainedFlagsText();
  }

  /** The options built by `fs_name("mydata")`. */
  function NamedOptions(): MountOptions {
    Apply(Default(), SetFsName("mydata"))
  }

  lemma NamedOptionsFields()
    ensures NamedOptions().fsName == Some("mydata")
    ensures NamedOptions().customOptions == None
  {
    ApplyWritesField(Default(), SetFsName("mydata"));
    ApplyKeepsField(Default(), SetFsName("mydata"), CustomOptions);
  }

  lemma NamedSplit(procUid: u32, procGid: u32)
    ensures Split(BuildUnprivileged(NamedOptions(), procUid, procGid), ',')
            == UnprivilegedTokens(NamedOptions(), procUid, procGid)
  {
    var o := NamedOptions();
    NamedOptionsFields();
    assert ',' !in o.fsName.UnwrapOr(DefaultFsName);
    UnprivilegedStringTokens(o, procUid, procGid);
    assert CustomTokens(o.customOptions) == [];
    assert UnprivilegedTokens(o, procUid, procGid) + [] == UnprivilegedTokens(o, procUid, procGid);
  }

  lemma NamedFsnameToken(procUid: u32, procGid: u32)
    ensures UnprivilegedTokens(NamedOptions(), procUid, procGid)[3] == "fsname=mydata"
  {
    NamedOptionsFields();
  }

  /** `fs_name("mydata")` alone: the unprivileged string names it and has no `fd`. */
  lemma NamedUnprivilegedString(procUid: u32, procGid: u32)
    ensures var ts := Split(BuildUnprivileged(NamedOptions(), procUid, procGid), ',');
      && "fsname=mydata" in ts
      && Lookup(ts, "fd") == None
  {
    NamedSplit(procUid, procGid);
    NamedFsnameToken(procUid, procGid);
    UnprivilegedLookups(NamedOptions(), procUid, procGid);
  }

  /**
   No descriptor reaches the unprivileged string, unless the unescaped file
   system name or the custom text itself spells one.
   */
  lemma UnprivilegedStringHasNoFd(o: MountOptions, procUid: u32, procGid: u32)
    requires ',' !in o.fsName.UnwrapOr(DefaultFsName)
    requires Lookup(CustomTokens(o.customOptions), "fd") == None
    ensures Lookup(Split(BuildUnprivileged(o, procUid, procGid), ','), "fd") == None
  {
    UnprivilegedLookups(o, procUid, procGid);
    UnprivilegedStringTokens(o, procUid, procGid);
    LookupAppend(UnprivilegedTokens(o, procUid, procGid), CustomTokens(o.customOptions), "fd");
  }

  /** Default options give just the two mandatory nmount entries. */
  lemma DefaultFreeBsdEntries()
    ensures BuildFreeBsd(Default()) == [("fstype", Some("fusefs")), ("from", Some("/dev/fuse"))]
  {
  }
}
