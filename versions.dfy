/**
 * The `major.minor` version string of the merged topology
 * (`TopologyManager.update_version` and `TopologyManager.new_version`).
 */
module Versions {
  import opened Wrappers
  import opened Exceptions
  import Strings
  import Numerals

  /**
   * The version the first topology receives. `TOPOLOGY_INITIAL_VERSION`
   * lives in the data-model package; its value is taken to be "1.0".
   */
  const InitialVersion: string := "1.0"

  /** `f"{major}.{minor}"`. */
  function VersionString(major: int, minor: int): string {
    Numerals.IntToString(major) + "." + Numerals.IntToString(minor)
  }

  /**
   * `new_version(ver, sub_ver, sub)`: bumps the minor part when `sub`,
   * otherwise bumps the major part and resets the minor one to "0". The
   * part that is read goes through `int()`, which raises `ValueError` on
   * anything but an integer.
   */
  function NewVersion(ver: string, subVer: string, sub: bool): Result<string, PyError> {
    if !sub then
      match Numerals.ParseInt(ver)
      case Some(v) => Ok(Numerals.IntToString(v + 1) + "." + "0")
      case None => Err(ValueError)
    else
      match Numerals.ParseInt(subVer)
      case Some(s) => Ok(ver + "." + Numerals.IntToString(s + 1))
      case None => Err(ValueError)
  }

  /**
   * `update_version(sub)` applied to `version`: a version that does not
   * split on '.' into exactly two parts is read as major = the whole
   * string, minor = "0".
   */
  function UpdateVersion(version: string, sub: bool): Result<string, PyError> {
    var parts := Strings.Split(version, '.');
    if |parts| == 2 then NewVersion(parts[0], parts[1], sub)
    else NewVersion(version, "0", sub)
  }

  /** The parts of a well-formed version are its two numbers. */
  lemma SplitVersion(major: int, minor: int)
    ensures Strings.Split(VersionString(major, minor), '.')
         == [Numerals.IntToString(major), Numerals.IntToString(minor)]
  {
    var a, b := Numerals.IntToString(major), Numerals.IntToString(minor);
    Numerals.IntToStringHasNo(major, '.');
    Numerals.IntToStringHasNo(minor, '.');
    assert VersionString(major, minor) == a + ['.'] + b;
    Strings.SplitAfterField(a, '.', b);
    Strings.SplitWithoutSep(b, '.');
  }

  /**
   * On a well-formed version, a major bump gives `(major+1).0` and a minor
   * bump gives `major.(minor+1)`; neither raises.
   */
  lemma UpdateVersionBumps(major: int, minor: int, sub: bool)
    ensures UpdateVersion(VersionString(major, minor), sub)
         == Ok(if sub then VersionString(major, minor + 1) else VersionString(major + 1, 0))
  {
    SplitVersion(major, minor);
    Numerals.IntRoundTrip(major);
    Numerals.IntRoundTrip(minor);
    assert Numerals.IntToString(0) == "0";
  }

  /** A version without a '.' is read as `major.0`. */
  lemma UpdateVersionWithoutMinor(major: int, sub: bool)
    ensures UpdateVersion(Numerals.IntToString(major), sub)
         == Ok(if sub then VersionString(major, 1) else VersionString(major + 1, 0))
  {
    Numerals.IntToStringHasNo(major, '.');
    Strings.SplitWithoutSep(Numerals.IntToString(major), '.');
    Numerals.IntRoundTrip(major);
    assert Numerals.IntToString(0) == "0" && Numerals.IntToString(1) == "1";
  }

  /** A version whose major part is not a number makes the major bump raise `ValueError`. */
  lemma UpdateVersionRejects(major: string, minor: int)
    requires '.' !in major && Numerals.ParseInt(major).None?
    ensures UpdateVersion(major + "." + Numerals.IntToString(minor), false) == Err(ValueError)
  {
    Numerals.IntToStringHasNo(minor, '.');
    assert major + "." + Numerals.IntToString(minor) == major + ['.'] + Numerals.IntToString(minor);
    Strings.SplitAfterField(major, '.', Numerals.IntToString(minor));
    Strings.SplitWithoutSep(Numerals.IntToString(minor), '.');
  }

  /** The initial version is well formed: 1.0. */
  lemma InitialVersionIsWellFormed()
    ensures InitialVersion == VersionString(1, 0)
  {
    assert Numerals.IntToString(1) == "1" && Numerals.IntToString(0) == "0";
  }
}
