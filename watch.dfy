/**
 * The two path rules of the watcher loop. Whether a path matches -regex or
 * -ignore is decided by Go's regexp package, which is not modelled: the two
 * match results are inputs here.
 */
module Watch {
  import opened Wrappers

  /**
   * The watch rule, applied to a path found by the directory walk or created
   * later. `info` is the path's file information: Some(isDir), or None when
   * os.Stat (or the walk) failed and the os.FileInfo is nil. The result is
   * Some(true) when the path is added to the watcher, Some(false) when it is
   * skipped, and None when the rule asks a nil os.FileInfo whether it is a
   * directory, which panics. A -regex match short-circuits that question.
   */
  function Watched(matchesRegex: bool, matchesIgnore: bool, info: Option<bool>): (r: Option<bool>)
    ensures r.None? <==> !matchesRegex && info.None?
    ensures r == Some(true) <==> (matchesRegex || info == Some(true)) && !matchesIgnore
  {
    if matchesRegex then Some(!matchesIgnore)
    else match info
      case None => None
      case Some(isDir) => Some(isDir && !matchesIgnore)
  }

  /** A change event requests a restart iff its path matches -regex and does
      not match -ignore; such a path is watched even without file information. */
  function Signals(matchesRegex: bool, matchesIgnore: bool): (r: bool)
    ensures r ==> Watched(matchesRegex, matchesIgnore, None) == Some(true)
    ensures !matchesRegex ==> !r
  {
    matchesRegex && !matchesIgnore
  }

  /** A path that requests restarts is also one the walk puts under watch,
      whatever its file information. */
  lemma SignallingPathsAreWatched(matchesRegex: bool, matchesIgnore: bool, info: Option<bool>)
    ensures Signals(matchesRegex, matchesIgnore) ==> Watched(matchesRegex, matchesIgnore, info) == Some(true)
  {
  }

  /** Being a directory gets a path watched but never makes it signal: the two
      rules differ exactly for directories that do not match -regex. */
  lemma DirectoriesAloneNeverSignal(matchesRegex: bool, matchesIgnore: bool, info: Option<bool>)
    ensures Watched(matchesRegex, matchesIgnore, info) == Some(true) && !Signals(matchesRegex, matchesIgnore)
            <==> info == Some(true) && !matchesRegex && !matchesIgnore
  {
  }

  /** -ignore keeps a path from being watched and from signalling. It does not
      prevent the panic: the rule asks for the file information before it looks
      at the -ignore match. */
  lemma IgnoredPathsAreInert(matchesRegex: bool, info: Option<bool>)
    ensures Watched(matchesRegex, true, info) != Some(true) && !Signals(matchesRegex, true)
    ensures Watched(matchesRegex, true, info).None? <==> !matchesRegex && info.None?
  {
  }

  /** A created path whose os.Stat fails crashes the supervisor unless it
      matches -regex. */
  lemma MissingInfoPanics(matchesRegex: bool, matchesIgnore: bool)
    ensures Watched(matchesRegex, matchesIgnore, None).None? <==> !matchesRegex
  {
  }
}
