/**
 * The file-type bits of an `st_mode` word as `uv_fs_lstat` reports it, and the
 * replacement `S_ISDIR`/`S_ISLNK` macros the older addon defines for `_WIN32`
 * builds (src/FindGitRepos.cpp:3-6).
 */
module StatModes {
  import opened Wrappers

  /** `S_IFMT`, `S_IFDIR` and `S_IFLNK`: octal 0170000, 0040000 and 0120000. */
  const TypeMask: bv64 := 0xF000
  const DirType: bv64 := 0x4000
  const LinkType: bv64 := 0xA000

  /** `S_ISDIR`: the file-type bits say "directory". */
  predicate IsDir(m: bv64)
  {
    m & TypeMask == DirType
  }

  /** `S_ISLNK`: the file-type bits say "symbolic link". */
  predicate IsLink(m: bv64)
  {
    m & TypeMask == LinkType
  }

  /** A mode can be a directory or a link, never both. */
  lemma DirIsNotLink(m: bv64)
    ensures IsDir(m) ==> !IsLink(m)
  {
  }

  /** An `lstat` result the POSIX loops accept for an entry of unknown type: a directory, not a link. */
  predicate UnknownEntryIsDirectory(lstat: Option<bv64>)
  {
    lstat.Some? && IsDir(lstat.value) && !IsLink(lstat.value)
  }

  /**
   * `S_ISDIR(m)` as the older addon spells it for `_WIN32`: `((m & 0170000 == 0040000))`.
   * Since `==` binds tighter than `&`, this is `m & (0170000 == 0040000)`, that is `m & 0`.
   */
  function Win32IsDirAsWritten(m: bv64): bv64
  {
    m & (if TypeMask == DirType then 1 else 0)
  }

  /** `S_ISLNK(m)` as the older addon spells it for `_WIN32`: `m & (0170000 == 0120000)`. */
  function Win32IsLinkAsWritten(m: bv64): bv64
  {
    m & (if TypeMask == LinkType then 1 else 0)
  }

  /** The acceptance test of src/FindGitRepos.cpp:62-68 evaluated with the `_WIN32` macros as written. */
  predicate UnknownEntryIsDirectoryWin32AsWritten(lstat: Option<bv64>)
  {
    lstat.Some? && Win32IsDirAsWritten(lstat.value) != 0 && Win32IsLinkAsWritten(lstat.value) == 0
  }

  /** As written, both `_WIN32` macros yield 0 for every mode, so every entry of unknown type is skipped. */
  lemma Win32MacrosSkipEveryUnknownEntry(m: bv64, lstat: Option<bv64>)
    ensures Win32IsDirAsWritten(m) == 0 && Win32IsLinkAsWritten(m) == 0
    ensures !UnknownEntryIsDirectoryWin32AsWritten(lstat)
  {
  }

  /** A directory with permissions 0755 (mode 040755): the intended test accepts it, the `_WIN32` spelling does not. */
  lemma Win32MacrosMissDirectory()
    ensures UnknownEntryIsDirectory(Some(0x41ED))
    ensures !UnknownEntryIsDirectoryWin32AsWritten(Some(0x41ED))
  {
  }

  /** The intended macros accept exactly the modes whose type bits say directory, whatever the permission bits. */
  lemma DirectoryModesAccepted(perm: bv64)
    requires perm & TypeMask == 0
    ensures UnknownEntryIsDirectory(Some(DirType | perm))
    ensures !UnknownEntryIsDirectory(Some(LinkType | perm))
  {
  }
}
