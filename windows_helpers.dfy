/**
 * The NT long-path helpers of cpp/includes/WindowsHelpers.h (repeated verbatim
 * in cpp/src/FindGitRepos.cpp:13-87): recognising, adding and removing the
 * `\\?\` and `\\?\UNC\` prefixes, and the two text conversions around them.
 *
 * Wide strings are modelled as `string`. The Win32 conversions
 * (`WideCharToMultiByte`, `MultiByteToWideChar`) and `GetFullPathNameW` are
 * oracles passed in as parameters.
 */
module WindowsHelpers {
  import opened Wrappers

  /** `\\?\`: the NT prefix for a drive path. */
  const NtPrefix: string := "\\\\?\\"
  /** `\\?\UNC\`: the NT prefix for a network path. */
  const NtUncPrefix: string := "\\\\?\\UNC\\"
  /** `\??\`: the object-manager prefix, also accepted as an NT path. */
  const NtObjectPrefix: string := "\\??\\"
  /** `\\`: how a network path starts. */
  const UncPrefix: string := "\\\\"
  /** `UNC\`: a path starting like this cannot be told apart from a network path once prefixed. */
  const UncHead: string := "UNC\\"

  /**
   * `stripNTPrefix`: `\\?\UNC\rest` becomes `\\rest`, any other `\\?\rest` becomes
   * `rest`, and every other path, `\??\` ones included, is returned as it is.
   */
  function StripNtPrefix(path: string): (r: string)
    ensures NtUncPrefix <= path ==> r == UncPrefix + path[|NtUncPrefix|..]
    ensures !(NtUncPrefix <= path) && NtPrefix <= path ==> r == path[|NtPrefix|..]
    ensures !(NtPrefix <= path) ==> r == path
    ensures |r| <= |path|
  {
    if NtUncPrefix <= path then "\\" + path[7..]
    else if NtPrefix <= path then path[4..]
    else path
  }

  /** `isNtPath`: the path starts with `\\?\` or `\??\`. */
  predicate IsNtPath(path: string)
  {
    NtPrefix <= path || NtObjectPrefix <= path
  }

  /**
   * The final step of `prefixWithNtPath`: a full network path `\\rest` becomes
   * `\\?\UNC\rest`; any other full path gets `\\?\` in front.
   */
  function NtRewrite(full: string): (r: string)
    ensures NtPrefix <= r && IsNtPath(r)
    ensures |r| == |full| + (if UncPrefix <= full then 6 else 4)
  {
    if UncPrefix <= full then NtUncPrefix + full[2..] else NtPrefix + full
  }

  /**
   * The answers `GetFullPathNameW` gives for one path: the buffer length the
   * sizing call asks for (0 when it fails), what the second call returns, and
   * the text it writes.
   */
  datatype FullPathQuery = FullPathQuery(required: nat, written: nat, buffer: string)

  predicate QuerySucceeded(q: FullPathQuery)
  {
    q.required != 0 && q.written == q.required - 1
  }

  /**
   * `prefixWithNtPath`: when either call fails or the second one returns an
   * unexpected length, the path is returned unchanged; otherwise the full path
   * is rewritten into NT form, from which stripping recovers it.
   */
  function PrefixWithNtPath(path: string, query: FullPathQuery): (r: string)
    ensures !QuerySucceeded(query) ==> r == path
    ensures QuerySucceeded(query) ==> IsNtPath(r)
    ensures QuerySucceeded(query) && !(UncHead <= query.buffer) ==> StripNtPrefix(r) == query.buffer
  {
    if query.required == 0 then path
    else if query.written != query.required - 1 then path
    else if UncHead <= query.buffer then NtRewrite(query.buffer)
    else
      RoundTrip(query.buffer);
      NtRewrite(query.buffer)
  }

  /**
   * `convertWideCharToMultiByte`: converts `input` with the prefix stripped,
   * unless the walk started from a path that was already in NT form. `None`
   * stands for a conversion that reports failure.
   */
  function ConvertWideCharToMultiByte(input: string, wasNtPath: bool, toUtf8: string -> Option<string>): (r: Option<string>)
    ensures wasNtPath || !(NtPrefix <= input) ==> r == toUtf8(input)
    ensures !wasNtPath && NtPrefix <= input && !(NtUncPrefix <= input) ==> r == toUtf8(input[4..])
    ensures !wasNtPath && NtUncPrefix <= input ==> r == toUtf8(UncPrefix + input[8..])
  {
    toUtf8(if wasNtPath then input else StripNtPrefix(input))
  }

  /** `convertMultiByteToWideChar`: the converted text, or the empty string when conversion fails. */
  function ConvertMultiByteToWideChar(multiByte: string, fromUtf8: string -> Option<string>): (r: string)
    ensures fromUtf8(multiByte) == None ==> r == []
    ensures fromUtf8(multiByte) != None ==> r == fromUtf8(multiByte).value
  {
    match fromUtf8(multiByte)
    case None => []
    case Some(wide) => wide
  }

  /**
   * Stripping undoes the rewrite, also for any path below the rewritten one,
   * as long as the unprefixed path does not itself start with `UNC\`.
   */
  lemma StripUndoesRewrite(full: string, suffix: string)
    requires !(UncHead <= full + suffix)
    ensures StripNtPrefix(NtRewrite(full) + suffix) == full + suffix
  {
    if UncPrefix <= full {
      StripUndoesUncRewrite(full, suffix);
    } else {
      StripUndoesDriveRewrite(full, suffix);
    }
  }

  lemma StripUndoesUncRewrite(full: string, suffix: string)
    requires UncPrefix <= full
    ensures StripNtPrefix(NtRewrite(full) + suffix) == full + suffix
  {
    var rest := full[2..] + suffix;
    var p := NtRewrite(full) + suffix;
    assert p == NtUncPrefix + rest;
    assert p[..8] == NtUncPrefix;
    assert p[7..] == "\\" + rest;
    assert full + suffix == UncPrefix + rest by {
      assert full == UncPrefix + full[2..];
    }
  }

  lemma StripUndoesDriveRewrite(full: string, suffix: string)
    requires !(UncPrefix <= full)
    requires !(UncHead <= full + suffix)
    ensures StripNtPrefix(NtRewrite(full) + suffix) == full + suffix
  {
    var p := NtRewrite(full) + suffix;
    assert p == NtPrefix + (full + suffix);
    assert p[..4] == NtPrefix;
    assert p[4..] == full + suffix;
  }

  /** The round trip for a full path: `StripNtPrefix(NtRewrite(p)) == p` unless `p` starts with `UNC\`. */
  lemma RoundTrip(full: string)
    requires !(UncHead <= full)
    ensures StripNtPrefix(NtRewrite(full)) == full
  {
    assert full + [] == full;
    assert NtRewrite(full) + [] == NtRewrite(full);
    StripUndoesRewrite(full, []);
  }

  /** Without that condition the round trip fails: `UNC\x` comes back as the network path `\\x`. */
  lemma RoundTripFailsForUncHead()
    ensures StripNtPrefix(NtRewrite("UNC\\x")) == "\\\\x"
    ensures StripNtPrefix(NtRewrite("UNC\\x")) != "UNC\\x"
  {
    assert "UNC\\x"[0] != UncPrefix[0];
    assert NtRewrite("UNC\\x") == NtUncPrefix + "x";
    assert NtUncPrefix <= NtRewrite("UNC\\x");
  }

  /**
   * A full path that already differs from `UNC\` within its first four
   * characters (every drive path and every network path does) keeps every
   * path below it out of reach of that failure.
   */
  lemma DivergentPathsStayClearOfUncHead(full: string, suffix: string)
    requires !(UncHead <= full) && !(full <= UncHead)
    ensures !(UncHead <= full + suffix)
  {
  }

  /** Paths in `\??\` form are NT paths that stripping leaves alone. */
  lemma ObjectPathsAreNotStripped(path: string)
    requires NtObjectPrefix <= path
    ensures IsNtPath(path)
    ensures StripNtPrefix(path) == path
  {
    assert path[1] == '?';
    assert !(NtPrefix <= path);
  }
}
