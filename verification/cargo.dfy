/** The string logic of the build helper: target triples, library file
    names and the build profile.

    A target string is split on every `-` (Rust `str::split('-')`, which
    keeps empty pieces); the first three pieces are architecture, vendor and
    system, the fourth (when present) is the ABI, and any further pieces are
    dropped. Fewer than three pieces is a panic, modelled as `Failure`.
 */
module Cargo {
  import opened Wrappers

  datatype Target = Target(architecture: string, vendor: string, system: string, abi: Option<string>)

  predicate NoDash(s: string) {
    '-' !in s
  }

  // ---------------------------------------------------------------------
  // Splitting on '-' and joining with '-'
  // ---------------------------------------------------------------------

  /** Pieces glued back together with a `-` between neighbours. */
  function Join(parts: seq<string>): string
    requires |parts| >= 1
  {
    if |parts| == 1 then parts[0] else parts[0] + "-" + Join(parts[1..])
  }

  /** The index of the first `-` of `s`, or `|s|` when there is none. */
  function DashIndex(s: string): (k: nat)
    ensures k <= |s|
    ensures k < |s| ==> s[k] == '-'
    ensures forall j | 0 <= j < k :: s[j] != '-'
  {
    if |s| == 0 || s[0] == '-' then 0 else 1 + DashIndex(s[1..])
  }

  /** `s.split('-')`: the dash-free pieces that join back to `s`. */
  function Split(s: string): (parts: seq<string>)
    ensures |parts| >= 1
    ensures forall i | 0 <= i < |parts| :: NoDash(parts[i])
    ensures Join(parts) == s
    decreases |s|
  {
    var k := DashIndex(s);
    if k == |s| then
      [s]
    else
      var rest := Split(s[k + 1..]);
      assert NoDash(s[..k]) by {
        forall j | 0 <= j < k ensures s[..k][j] != '-' { }
      }
      assert ([s[..k]] + rest)[1..] == rest;
      assert s == s[..k] + "-" + s[k + 1..];
      [s[..k]] + rest
  }

  lemma {:induction false} DashIndexAfterPiece(a: string, b: string)
    requires NoDash(a)
    ensures DashIndex(a + "-" + b) == |a|
  {
    var s := a + "-" + b;
    assert s[|a|] == '-';
    forall j | 0 <= j < |a| ensures s[j] != '-' {
      assert s[j] == a[j];
    }
  }

  /** Splitting what was joined from dash-free pieces gives the pieces back:
      together with `Split`'s contract, the split of a string is the unique
      list of dash-free pieces that joins to it. */
  lemma {:induction false} SplitJoin(parts: seq<string>)
    requires |parts| >= 1
    requires forall i | 0 <= i < |parts| :: NoDash(parts[i])
    ensures Split(Join(parts)) == parts
    decreases |parts|
  {
    if |parts| == 1 {
      assert NoDash(parts[0]);
      assert DashIndex(parts[0]) == |parts[0]|;
    } else {
      var s := Join(parts);
      var rest := parts[1..];
      assert s == parts[0] + "-" + Join(rest);
      DashIndexAfterPiece(parts[0], Join(rest));
      assert s[..|parts[0]|] == parts[0];
      assert s[|parts[0]| + 1..] == Join(rest);
      SplitJoin(rest);
      assert parts == [parts[0]] + rest;
    }
  }

  // ---------------------------------------------------------------------
  // Parsing and formatting a target triple
  // ---------------------------------------------------------------------

  /** `parse_target`. */
  function ParseTarget(s: string): (r: Result<Target, string>)
    ensures r.Failure? <==> |Split(s)| < 3
    ensures r.Failure? ==> r.error == "Failed to parse TARGET " + s
    ensures r.Success? ==> Components(r.value) == Split(s)[..if |Split(s)| > 3 then 4 else 3]
  {
    var parts := Split(s);
    if |parts| < 3 then
      Failure("Failed to parse TARGET " + s)
    else
      var abi := if |parts| > 3 then Some(parts[3]) else None;
      Success(Target(parts[0], parts[1], parts[2], abi))
  }

  /** The pieces a target is written as: three, or four with an ABI. */
  function Components(t: Target): (cs: seq<string>)
    ensures |cs| == if t.abi.Some? then 4 else 3
  {
    [t.architecture, t.vendor, t.system] + if t.abi.Some? then [t.abi.value] else []
  }

  /** A target whose pieces contain no `-`, as every parsed target is. */
  predicate WellFormed(t: Target) {
    forall i | 0 <= i < |Components(t)| :: NoDash(Components(t)[i])
  }

  /** `Display for Target`. */
  function Format(t: Target): (s: string)
    ensures s == Join(Components(t))
  {
    var cs := Components(t);
    var tail := if t.abi.Some? then t.system + "-" + t.abi.value else t.system;
    assert Join(cs[2..]) == tail by {
      if t.abi.Some? {
        assert cs[2..][1..] == [t.abi.value];
      }
    }
    assert cs[1..][1..] == cs[2..];
    t.architecture + "-" + t.vendor + "-" + tail
  }

  /** Every parsed target is well formed. */
  lemma ParsedIsWellFormed(s: string)
    requires ParseTarget(s).Success?
    ensures WellFormed(ParseTarget(s).value)
  {
    var parts := Split(s);
    var cs := Components(ParseTarget(s).value);
    forall i | 0 <= i < |cs| ensures NoDash(cs[i]) {
      assert cs[i] == parts[i];
    }
  }

  /** A string of exactly three or four pieces formats back to itself. */
  lemma ParseFormatRoundTrip(s: string)
    requires 3 <= |Split(s)| <= 4
    ensures ParseTarget(s).Success?
    ensures Format(ParseTarget(s).value) == s
  {
    var parts := Split(s);
    assert parts[..|parts|] == parts;
  }

  /** A well-formed target parses back from its formatting. */
  lemma FormatParseRoundTrip(t: Target)
    requires WellFormed(t)
    ensures ParseTarget(Format(t)) == Success(t)
  {
    SplitJoin(Components(t));
  }

  /** Pieces after the fourth are dropped: the parsed target formats to the
      first four pieces only, a strict prefix of the input. */
  lemma ExtraComponentsDropped(s: string)
    requires |Split(s)| > 4
    ensures ParseTarget(s).Success?
    ensures Format(ParseTarget(s).value) == Join(Split(s)[..4])
    ensures |Format(ParseTarget(s).value)| < |s|
  {
    var parts := Split(s);
    JoinPrefix(parts, 4);
  }

  /** Joining a proper prefix of the pieces gives a strict prefix of the
      whole, followed by a dash. */
  lemma {:induction false} JoinPrefix(parts: seq<string>, n: nat)
    requires 1 <= n < |parts|
    ensures Join(parts) == Join(parts[..n]) + "-" + Join(parts[n..])
    decreases n
  {
    if n == 1 {
      assert parts[..1] == [parts[0]];
    } else {
      JoinPrefix(parts[1..], n - 1);
      assert parts[1..][..n - 1] == parts[..n][1..];
      assert parts[1..][n - 1..] == parts[n..];
    }
  }

  // ---------------------------------------------------------------------
  // Target queries
  // ---------------------------------------------------------------------

  /** `Target::is_windows`. */
  predicate IsWindows(t: Target) {
    t.system == "windows"
  }

  /** `Target::library_to_filename`: `name.lib` on Windows, `libname.a`
      elsewhere. */
  function LibraryToFilename(t: Target, name: string): (f: string)
    ensures IsWindows(t) ==> |f| == |name| + 4 && f[..|name|] == name && f[|name|..] == ".lib"
    ensures !IsWindows(t) ==> |f| == |name| + 5 && f[..3] == "lib" && f[3..|name| + 3] == name && f[|name| + 3..] == ".a"
  {
    if IsWindows(t) then name + ".lib" else "lib" + name + ".a"
  }

  /** Different library names never map to the same file name. */
  lemma LibraryToFilenameInjective(t: Target, a: string, b: string)
    requires LibraryToFilename(t, a) == LibraryToFilename(t, b)
    ensures a == b
  {
    var f := LibraryToFilename(t, a);
    assert |a| == |b|;
    if IsWindows(t) {
      assert a == f[..|a|] == b;
    } else {
      assert a == f[3..|a| + 3] == b;
    }
  }

  /** A parsed target is a Windows target exactly when its third piece is
      `windows`. */
  lemma ParsedWindows(s: string)
    requires ParseTarget(s).Success?
    ensures IsWindows(ParseTarget(s).value) <==> Split(s)[2] == "windows"
  {
  }

  /** `Target::as_strs`: the four fields as borrowed strings. */
  function AsStrs(t: Target): (r: (string, string, string, Option<string>))
    ensures Target(r.0, r.1, r.2, r.3) == t
  {
    (t.architecture, t.vendor, t.system, t.abi)
  }

  // ---------------------------------------------------------------------
  // Build profile
  // ---------------------------------------------------------------------

  /** `build_release` over the value of `PROFILE`: `release` builds in
      release mode, `debug` in debug mode, anything else panics. */
  function BuildRelease(profile: string): (r: Result<bool, string>)
    ensures r.Success? <==> profile == "release" || profile == "debug"
    ensures r == Success(true) <==> profile == "release"
    ensures r.Failure? ==> r.error == "PROFILE '" + profile + "' is not supported by this build script"
  {
    if profile == "release" then Success(true)
    else if profile == "debug" then Success(false)
    else Failure("PROFILE '" + profile + "' is not supported by this build script")
  }

  /** The profile name for a build mode. */
  function ProfileName(release: bool): string {
    if release then "release" else "debug"
  }

  /** The profile names are exactly the ones `BuildRelease` accepts, and it
      maps each back to its mode. */
  lemma BuildReleaseRoundTrip(release: bool, profile: string)
    ensures BuildRelease(ProfileName(release)) == Success(release)
    ensures BuildRelease(profile).Success? ==> ProfileName(BuildRelease(profile).value) == profile
  {
  }
}
