/**
 * The exported JavaScript function (js/index.js): separator normalisation on
 * win32, the argument rejections, and the call into the three-argument native
 * `findGitRepos` of the older addon, whose throw rejects the promise.
 */
module JsEntry {
  import opened JsValues
  import LegacyAddon

  const PathMessage: string := "Must provide starting path as first argument."
  const CallbackMessage: string := "Must provide progress callback as second argument."
  /** The `TypeError` V8 throws when `replace` is called on a value that is not a string. */
  const ReplaceTypeError: string := "_path.replace is not a function"

  /** `s.replace(/x/g, y)` for a single character `x`: every `from` becomes `to`, nothing else changes. */
  function ReplaceAll(s: string, from: char, to: char): (r: string)
    ensures |r| == |s|
    ensures forall i :: 0 <= i < |s| ==> r[i] == (if s[i] == from then to else s[i])
  {
    if s == [] then []
    else [if s[0] == from then to else s[0]] + ReplaceAll(s[1..], from, to)
  }

  /** `normalizeStartingPath`: on win32 every `\` becomes `/`; elsewhere the path is left as it is. */
  function NormalizeStartingPath(win32: bool, path: string): (r: string)
    ensures |r| == |path|
    ensures win32 ==> '\\' !in r
    ensures !win32 ==> r == path
  {
    if win32 then ReplaceAll(path, '\\', '/') else path
  }

  /** `normalizeRepositoryPath`: every `/` becomes `\`. */
  function NormalizeRepositoryPath(path: string): (r: string)
    ensures |r| == |path|
    ensures '/' !in r
  {
    ReplaceAll(path, '/', '\\')
  }

  /** Replacing a character that no longer occurs changes nothing. */
  lemma {:induction false} ReplaceAbsent(s: string, from: char, to: char)
    requires from !in s
    ensures ReplaceAll(s, from, to) == s
  {
    var r := ReplaceAll(s, from, to);
    assert forall i :: 0 <= i < |s| ==> r[i] == s[i];
  }

  /** Both normalisations are idempotent. */
  lemma NormalizationIsIdempotent(win32: bool, path: string)
    ensures NormalizeStartingPath(win32, NormalizeStartingPath(win32, path)) == NormalizeStartingPath(win32, path)
    ensures NormalizeRepositoryPath(NormalizeRepositoryPath(path)) == NormalizeRepositoryPath(path)
  {
    if win32 {
      ReplaceAbsent(NormalizeStartingPath(win32, path), '\\', '/');
    }
    ReplaceAbsent(NormalizeRepositoryPath(path), '/', '\\');
  }

  /** On win32 a path without `/` survives the trip to the native side and back. */
  lemma SeparatorRoundTrip(path: string)
    requires '/' !in path
    ensures NormalizeRepositoryPath(NormalizeStartingPath(true, path)) == path
  {
    var there := NormalizeStartingPath(true, path);
    var back := NormalizeRepositoryPath(there);
    forall i | 0 <= i < |path|
      ensures back[i] == path[i]
    {
      assert path[i] != '/';
    }
  }

  /** `paths.map(normalizeRepositoryPath)`. */
  function NormalizeAll(paths: seq<string>): (r: seq<string>)
    ensures |r| == |paths|
    ensures forall i :: 0 <= i < |paths| ==> r[i] == NormalizeRepositoryPath(paths[i])
  {
    seq(|paths|, i requires 0 <= i < |paths| => NormalizeRepositoryPath(paths[i]))
  }

  /** What the caller sees of a batch or of the final list: mapped on win32, untouched elsewhere. */
  function Delivered(win32: bool, paths: seq<string>): (r: seq<string>)
    ensures |r| == |paths|
    ensures forall i :: 0 <= i < |paths| ==> r[i] == (if win32 then NormalizeRepositoryPath(paths[i]) else paths[i])
  {
    if win32 then NormalizeAll(paths) else paths
  }

  /** The promise is rejected with a message, or the native walk runs on a path. */
  datatype Call = Rejected(message: string) | Running(path: string)

  /** The exported function up to the point where the native walk is queued. */
  function Exported(win32: bool, startingPath: JsValue, progressCallback: JsValue): (r: Call)
    ensures !Truthy(startingPath) && startingPath != Str("") ==> r == Rejected(PathMessage)
    ensures (Truthy(startingPath) || startingPath == Str("")) && !Truthy(progressCallback) ==> r == Rejected(CallbackMessage)
    ensures r.Running? ==> startingPath.Str? && r.path == NormalizeStartingPath(win32, startingPath.s)
    ensures r.Running? ==> Truthy(progressCallback)
    ensures startingPath.Str? && progressCallback.Function? ==>
      r == Running(NormalizeStartingPath(win32, startingPath.s))
  {
    if !Truthy(startingPath) && startingPath != Str("") then Rejected(PathMessage)
    else if !Truthy(progressCallback) then Rejected(CallbackMessage)
    else if win32 && !startingPath.Str? then Rejected(ReplaceTypeError)
    else
      var arguments :=
        if win32 then [Str(NormalizeStartingPath(win32, startingPath.s)), Function, Function]
        else [startingPath, progressCallback, Function];
      match LegacyAddon.ValidateArguments(arguments)
      case Throw(message) => Rejected(message)
      case Queued(path) => Running(path)
  }

  /** The empty path passes the wrapper's check and reaches the native walk. */
  lemma EmptyPathIsAccepted(win32: bool)
    ensures Exported(win32, Str(""), Function) == Running("")
  {
  }

  /**
   * Off win32 a truthy progress value that is not a function is refused by the
   * native check; on win32 the wrapper hands the native side a function of its own.
   */
  lemma ProgressMustBeAFunctionOnlyOffWin32(path: string, progress: JsValue)
    requires Truthy(progress) && !progress.Function?
    ensures Exported(false, Str(path), progress) == Rejected(LegacyAddon.ProgressMessage)
    ensures Exported(true, Str(path), progress) == Running(NormalizeStartingPath(true, path))
  {
  }

  /** NaN is falsy: a NaN path is refused as missing, and a NaN progress callback as missing. */
  lemma NaNArgumentsAreRejected(win32: bool, path: string, progress: JsValue)
    ensures Exported(win32, Number(NaN), progress) == Rejected(PathMessage)
    ensures Exported(win32, Str(path), Number(NaN)) == Rejected(CallbackMessage)
  {
  }

  /** A truthy path that is not a string is refused: by `replace` on win32, by the native check elsewhere. */
  lemma NonStringPathIsRejected(path: JsValue)
    requires Truthy(path) && !path.Str?
    ensures Exported(true, path, Function) == Rejected(ReplaceTypeError)
    ensures Exported(false, path, Function) == Rejected(LegacyAddon.PathMessage)
  {
  }
}
