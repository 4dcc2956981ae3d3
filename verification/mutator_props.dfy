/**
 * Bump (version.go:56-69) moves a version to the next one at the chosen
 * level; Alpha, Beta and AddMetadata (version.go:72-85) overwrite one tag
 * and leave the ordering alone.
 */
module MutatorProps {
  import opened SemVer

  /** Whatever the flags, a bumped version comes after the original. */
  lemma BumpIsAfter(v: Version, breakingChanges: bool, changes: bool)
    ensures After(Bump(v, breakingChanges, changes), v)
    ensures !Equal(Bump(v, breakingChanges, changes), v)
  {
    LexLessKey(v, Bump(v, breakingChanges, changes));
  }

  /** A breaking change wins over a plain change: the second flag is then ignored. */
  lemma BreakingIgnoresChanges(v: Version)
    ensures Bump(v, true, true) == Bump(v, true, false)
  {
  }

  /** A patch bump gives the immediate successor: w comes after v exactly when
      w is not before Bump(v, false, false). */
  lemma BumpPatchIsSuccessor(v: Version, w: Version)
    ensures After(w, v) <==> !Before(w, Bump(v, false, false))
  {
    LexLessKey(v, w);
    LexLessKey(w, Bump(v, false, false));
  }

  /** A minor bump gives the least version with a larger (major, minor), among
      versions whose patch is not negative. */
  lemma BumpMinorIsSuccessor(v: Version, w: Version)
    requires w.patch >= 0
    ensures (v.major < w.major || (v.major == w.major && v.minor < w.minor))
            <==> !Before(w, Bump(v, false, true))
  {
    LexLessKey(w, Bump(v, false, true));
  }

  /** The bound on w.patch above is needed: New accepts a negative patch, and
      0.1.-1 has a larger (major, minor) than 0.0.0 yet sorts before 0.1.0. */
  lemma NegativePatchBelowMinorBump()
    ensures var w := Version(0, 1, -1, "", "");
            Zero.minor < w.minor && Before(w, Bump(Zero, false, true))
  {
    LexLessKey(Version(0, 1, -1, "", ""), Bump(Zero, false, true));
  }

  /** A major bump gives the least version with a larger major, among versions
      whose minor and patch are not negative. */
  lemma BumpMajorIsSuccessor(v: Version, w: Version, changes: bool)
    requires w.minor >= 0 && w.patch >= 0
    ensures v.major < w.major <==> !Before(w, Bump(v, true, changes))
  {
    LexLessKey(w, Bump(v, true, changes));
  }

  /** The last pre-release tag set is the one that stays. */
  lemma PreReleaseOverwrites(v: Version)
    ensures Alpha(Beta(v)) == Alpha(v) && Beta(Alpha(v)) == Beta(v)
    ensures Alpha(Alpha(v)) == Alpha(v) && Beta(Beta(v)) == Beta(v)
  {
  }

  /** The last metadata set is the one that stays, and it is independent of the pre-release tag. */
  lemma MetadataOverwrites(v: Version, s: string, t: string)
    ensures AddMetadata(AddMetadata(v, s), t) == AddMetadata(v, t)
    ensures AddMetadata(Alpha(v), s) == Alpha(AddMetadata(v, s))
    ensures AddMetadata(Beta(v), s) == Beta(AddMetadata(v, s))
  {
  }

  /** Tagging never moves a version in the order. */
  lemma TaggingKeepsOrder(v: Version, s: string)
    ensures Equal(Alpha(v), v) && Equal(Beta(v), v) && Equal(AddMetadata(v, s), v)
  {
  }

  /** Tags survive a bump and a bump survives tagging: the two kinds of mutation commute. */
  lemma BumpCommutesWithTags(v: Version, breakingChanges: bool, changes: bool, s: string)
    ensures Bump(Alpha(v), breakingChanges, changes) == Alpha(Bump(v, breakingChanges, changes))
    ensures Bump(Beta(v), breakingChanges, changes) == Beta(Bump(v, breakingChanges, changes))
    ensures Bump(AddMetadata(v, s), breakingChanges, changes) == AddMetadata(Bump(v, breakingChanges, changes), s)
  {
  }
}
