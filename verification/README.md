# FUSE mount options, modelled in Dafny

This project models `MountOptions` from the `fuse3` Rust crate
(`src/mount_options.rs`). `MountOptions` is the record of intentions a caller
fills in before a FUSE file system is mounted. It has one fluent setter per
field. It also has three renderers, which turn the record into what the
operating system's mount call expects:

- **Linux `build(fd)`**: a comma-joined option string. It holds `fd=`,
  `user_id=`, `group_id=` and `rootmode=`, then the bare flags `allow_root`,
  `allow_other`, `ro` and `default_permissions` when they are on, then the
  caller's custom options verbatim.
- **`build_with_unprivileged()`**: the same string for the privileged helper.
  It has no `fd=` token and always has `fsname=<name or fuse>` after `rootmode`.
- **FreeBSD `build()`**: an ordered list of nmount entries. It holds
  `fstype=fusefs` and `from=/dev/fuse`, then the `allow_other` and
  `default_permissions` flags when they are on, then `subtype=` with the file
  system name when one is set.

Files and modules:

- `optional.dfy` (`Optional`): `Option`, with Rust's `unwrap_or`.
- `decimal.dfy` (`Decimal`): the decimal text `format!("{}", n)` gives an
  integer, and the parsers that read it back.
- `text.dfy` (`Text`): `Join` (Rust's `join(",")`) and `Split`, which cuts
  the joined string at every comma.
- `option_reader.dfy` (`OptionReader`): how a reader takes an option string
  apart. A token `key=value` gives `key` a value, a token without `=` is a bare
  flag, and a later token for the same key wins.
- `mount_options.dfy` (`MountOptions`): the record and its default; `Setter`,
  with one constructor per Rust setter; `Apply` and `ApplyAll`, which are
  setter calls and chains of calls; `Field`/`Get`, a uniform view of the sixteen
  fields; the three renderers `BuildLinux`, `BuildUnprivileged` and
  `BuildFreeBsd`.
- `setter_laws.dfy` (`SetterLaws`): laws of the setters.
- `render_laws.dfy` (`RenderLaws`): laws of the renderers, plus example
  renderings computed from the code.

The process's uid and gid are parameters (`procUid`, `procGid`) wherever the
source calls `getuid()` or `getgid()`. `RawFd` is a subset type of `int`
holding the `i32` range. `u32` holds the `u32` range. The root mode is printed
in decimal like every other number. So the default 40000 reaches the string as
the five characters `40000`, and a root mode the caller sets is printed in
decimal too.

There are sixteen setters, one per field. The FreeBSD subtype entry's key is
the literal `subtype=`, trailing `=` included, as the code writes it
(`src/mount_options.rs:188`).

## Model

| member | source | states |
|---|---|---|
| `MountOptions.Default` | src/mount_options.rs:11-45 | no contract of its own: `#[derive(Default)]` leaves every `Option` unset and every flag off; `DefaultLinuxString` and `DefaultFreeBsdEntries` state what it renders |
| `MountOptions.Apply` | src/mount_options.rs:49-171 | no contract of its own: one setter call; `ApplyWritesField` and `ApplyKeepsOtherFields` state what it writes and what it keeps |
| `MountOptions.ApplyAll` | src/mount_options.rs:49-171 | no contract of its own: a chain of setter calls, left to right; `SetterLaws.ApplyAllField` states each field's final value |
| `MountOptions.BuildLinux` | src/mount_options.rs:196-234 | no contract of its own: `build(fd)`, the `opts` vector being `LinuxTokens` (the `fd` token, then `IdTokens`, then `FlagTokens`) joined with `,`, then the custom tail; `LinuxStringTokens`, `RenderLaws.LinuxTokenOrder`, `RenderLaws.LinuxReadBack` and `RenderLaws.CustomOptionsAppended` state what the string holds |
| `MountOptions.BuildUnprivileged` | src/mount_options.rs:237-278 | no contract of its own: `build_with_unprivileged()`, the `opts` vector being `UnprivilegedTokens` (`IdTokens`, the `fsname` token, then `FlagTokens`) joined with `,`, then the custom tail; `UnprivilegedStringTokens` and `RenderLaws.UnprivilegedIsLinuxWithoutFd` state what the string holds |
| `Decimal.NatToString` | src/mount_options.rs:199-207 | the `format!("{}", n)` text of a number is a non-empty run of digits with no leading zero except for 0 itself; `ParseNatToString` reads it back |
| `Decimal.IntToString` | src/mount_options.rs:198 | the text of the descriptor is non-empty, starts with `-` exactly when it is negative, and is digits after that, with no leading zero: a non-negative value starts with a digit and is `0` when that digit is `0`, and a negative one has a non-zero digit after the `-`; `ParseIntToString` reads it back |
| `Text.Join` | src/mount_options.rs:226 | no contract of its own: `opts.join(",")`; `Text.SplitJoin` and `Text.JoinSplit` state that `Split` is its inverse |
| `MountOptions.ApplyWritesField` | src/mount_options.rs:49-171 | every setter stores its argument in its own field; `uid`, `gid`, `fs_name`, `rootmode`, `read_only` and `custom_options` become `Some(arg)`, and the boolean flags become `arg` |
| `MountOptions.ApplyKeepsOtherFields` | src/mount_options.rs:49-171 | a setter call leaves every other field of the record as it was |
| `SetterLaws.GetDeterminesOptions` | src/mount_options.rs:10-45 | the record is exactly its sixteen fields: two records that agree on every field are equal |
| `SetterLaws.SetTwice` | src/mount_options.rs:49-171 | calling a setter twice is the same as calling it once with the last value (setters overwrite, never accumulate) |
| `SetterLaws.SettersCommute` | src/mount_options.rs:49-171 | setters of different fields may be called in either order with the same result |
| `SetterLaws.SetToCurrentValue` | src/mount_options.rs:49-171 | setting a field to the value it already holds changes nothing |
| `SetterLaws.AllowOtherOnThenOff` | src/mount_options.rs:84-88 | `allow_other(true)` followed by `allow_other(false)` on options where it was off gives back the same options, so the same rendering |
| `SetterLaws.ApplyAllField` | src/mount_options.rs:49-171 | after any chain of setter calls, each field holds the value stored by the last call on it, or its earlier value when no call touched it |
| `SetterLaws.ChainOrderIrrelevant` | src/mount_options.rs:49-171 | two chains of calls that leave the same last value in every field build the same options, whatever their order |
| `MountOptions.FlagTokensSpec` | src/mount_options.rs:210-224 | the flag tokens are flag names, each at most once, in the fixed order `allow_root`, `allow_other`, `ro`, `default_permissions`; each appears exactly when its option is on, and `ro` only for `read_only == Some(true)` |
| `MountOptions.LinuxStringTokens` | src/mount_options.rs:196-234 | cutting the Linux string at commas gives exactly the derived tokens, followed by the pieces of the custom text when it is set and by nothing when it is unset; so no derived token is empty and, with `custom_options` unset, there is no trailing comma (`custom_options("")` does leave a trailing comma and an empty last piece) |
| `MountOptions.UnprivilegedStringTokens` | src/mount_options.rs:237-278 | the same for the unprivileged string, when the file system name has no comma |
| `MountOptions.BuildFreeBsd` | src/mount_options.rs:174-193 | the entry list starts with `("fstype", "fusefs")` and `("from", "/dev/fuse")` and has exactly one more entry per set option among `allow_other`, `default_permissions` and `fs_name`, so nothing else (uid, `ro`, custom text) is rendered; `allow_other` and `default_permissions` are valueless entries present exactly when their flags are on; a `("subtype=", name)` entry is present exactly when `fs_name == Some(name)` and is then last; `allow_other` comes before `default_permissions` |
| `RenderLaws.FreeBsdEntriesExact` | src/mount_options.rs:177-192 | a list has the FreeBSD shape (the two mandatory entries first, one entry per set option among `allow_other`, `default_permissions` and `fs_name`, each present exactly when set, `allow_other` before `default_permissions`, subtype last) exactly when it is the list `build()` returns |
| `RenderLaws.LinuxTokenOrder` | src/mount_options.rs:197-224 | the Linux tokens have the keys `fd`, `user_id`, `group_id` and `rootmode`, in that order, followed by 0 to 4 flag names in the fixed order |
| `RenderLaws.LinuxFlagPresence` | src/mount_options.rs:210-233 | a flag name is among the Linux tokens exactly when its option is on; in the whole string, it appears exactly when its option is on or the custom text itself spells it |
| `RenderLaws.UnprivilegedFlagPresence` | src/mount_options.rs:254-277 | the same flag rule for the unprivileged tokens and string |
| `RenderLaws.ReadOnlyOnlyWhenTrue` | src/mount_options.rs:218-220 | both Linux renderers emit `ro` exactly when `read_only` is `Some(true)`; `Some(false)` and unset both leave it out (also lines 262-264) |
| `RenderLaws.UnprivilegedIsLinuxWithoutFd` | src/mount_options.rs:237-268 | the unprivileged tokens are the Linux tokens with the `fd` token removed and `fsname=<fs_name or fuse>` inserted right after `rootmode` |
| `RenderLaws.FdOnlyInLinux` | src/mount_options.rs:237-252 | a reader finds the descriptor under `fd` in the Linux tokens, finds no `fd` in the unprivileged tokens, and finds the name, or `fuse` when none is set, under `fsname` there |
| `RenderLaws.UnprivilegedStringHasNoFd` | src/mount_options.rs:237-278 | the whole unprivileged string, cut at commas, gives `fd` no value when the name has no comma and the custom text gives `fd` none |
| `RenderLaws.IdTokensDistinguishIds` | src/mount_options.rs:199-207 | the `user_id`, `group_id` and `rootmode` tokens of two option sets are equal exactly when the numbers printed in them are equal |
| `RenderLaws.LinuxReadBack` | src/mount_options.rs:197-208 | reading the Linux tokens back gives the descriptor, the uid and gid (the process ids where unset) and the root mode (40000 where unset) as numbers |
| `RenderLaws.LinuxStringLookup` | src/mount_options.rs:226-233 | in the whole Linux string a key's value comes from the custom tail when the tail gives it one, because the tail is last, and from the derived tokens otherwise |
| `RenderLaws.CustomOptionsAppended` | src/mount_options.rs:226-233 | with custom text `c`, each Linux string is the string the options render without it, followed by `,` and `c` unmodified; so it ends with `,c` |
| `RenderLaws.LastCustomOptionsEndTheString` | src/mount_options.rs:166-171 | whatever order the setters were called in, the Linux string ends with `,` and the last custom text given |
| `RenderLaws.LinuxReadsOnlyItsFields` | src/mount_options.rs:196-234 | the Linux string depends only on `uid`, `gid`, `rootmode`, `allow_root`, `allow_other`, `read_only`, `default_permissions`, `custom_options`, the descriptor and the process ids |
| `RenderLaws.LinuxIgnoresHandshakeSetters` | src/mount_options.rs:196-234 | calling the setter of `fs_name`, `nonempty`, `dont_mask`, `no_open_support`, `no_open_dir_support`, `handle_killpriv`, `write_back` or `force_readdir_plus` leaves the Linux string unchanged |
| `RenderLaws.UnprivilegedReadsOnlyItsFields` | src/mount_options.rs:237-278 | the unprivileged string depends only on the same fields plus `fs_name` |
| `RenderLaws.FreeBsdReadsOnlyItsFields` | src/mount_options.rs:174-193 | the FreeBSD entries depend only on `allow_other`, `default_permissions` and `fs_name` |
| `RenderLaws.DefaultLinuxString` | src/mount_options.rs:196-208 | default options render as exactly `fd=<d>,user_id=<uid>,group_id=<gid>,rootmode=40000`, with no flags and no trailing comma |
| `RenderLaws.ChainedSettersLinuxString` | src/mount_options.rs:196-234 | `uid(1000).gid(1000).allow_other(true).read_only(true)` with descriptor 7 renders as `fd=7,user_id=1000,group_id=1000,rootmode=40000,allow_other,ro` |
| `RenderLaws.NamedUnprivilegedString` | src/mount_options.rs:248-251 | `fs_name("mydata")` alone gives an unprivileged string with the token `fsname=mydata` and no `fd` |
| `RenderLaws.DefaultFreeBsdEntries` | src/mount_options.rs:177-180 | default options give only the two mandatory nmount entries |
| `Decimal.ParseNatToString` | src/mount_options.rs:199-207 | the decimal text of a `u32` reads back as the same number |
| `Decimal.ParseIntToString` | src/mount_options.rs:198 | the decimal text of the descriptor, with a `-` when negative, reads back as the same number |
| `Text.SplitJoin` | src/mount_options.rs:226 | joining comma-free tokens with `,` and cutting at commas gives back the tokens |
| `Text.JoinSplit` | src/mount_options.rs:226 | cutting a string at commas and joining the pieces with `,` rebuilds the string |
| `OptionReader.KeyValueReadBack` | src/mount_options.rs:198-207 | a `key=value` token whose key has no `=` is read back as that key and that value |

## Left out

- `getuid()`/`getgid()` (`src/mount_options.rs:201,205,241,245`) are not called. The process ids are parameters of the Linux renderers.
- `nix::mount::Nmount` and the `cstr!` C strings are not modelled. The FreeBSD result is a sequence of `(key, value)` pairs. `str_opt`/`str_opt_owned` give `Some(value)`, and `null_opt` gives `None`.
- `OsString` is modelled as a plain `string`. The custom text is appended verbatim and never inspected, so the platform encoding does not matter.
- `#[cfg(target_os)]` and the `unprivileged` feature gate are not modelled. The three renderers are three functions with their own names.
- `&mut Self` chaining is modelled by functional updates (`Apply`, `ApplyAll`). The crate's `Debug` and `Clone` derives are not modelled, and `Eq` is Dafny's datatype equality.
- The FreeBSD options the source marks as not yet supported (`src/mount_options.rs:190-191`) are left out, as in the source.
- The mount itself, the descriptor's lifecycle, and the FUSE handshake that reads `write_back`, `no_open_support` and the other flags are not modelled. They are outside this file.
- The option reader (`Split`, `Lookup`, last key wins) is not code of this crate. It is the model's account of how a mount option string is taken apart, and it states what the renderers' output means.
- MountOptions.UnprivilegedStringTokens: holds only when the file system name has no comma. The name is not escaped, so a comma in it splits into extra tokens.
- RenderLaws.UnprivilegedFlagPresence: its statement about the whole string holds only when the file system name has no comma, for the same reason.
- RenderLaws.UnprivilegedStringHasNoFd: holds only when the file system name has no comma and the custom text gives `fd` no value, for the same reason.
