/** The test of ts_core_check that an offered core is not older than the installed one. */
module CoreOffer {
  import opened Wrappers

  datatype Version = Version(major: nat, minor: nat, patch: nat) {
    predicate Below(o: Version) {
      || major < o.major
      || (major == o.major && (minor < o.minor || (minor == o.minor && patch < o.patch)))
    }
  }

  function Tuple(v: Version): seq<nat> {
    [v.major, v.minor, v.patch]
  }

  lemma BelowIsTupleOrder(a: Version, b: Version)
    ensures a.Below(b) <==> Precedes(Tuple(a), Tuple(b))
  {
    var x, y := Tuple(a), Tuple(b);
    if a.Below(b) {
      var k := if a.major < b.major then 0 else if a.minor < b.minor then 1 else 2;
      assert x[..k] == y[..k] && x[k] < y[k];
    }
    if k :| 0 <= k < |x| && k < |y| && x[..k] == y[..k] && x[k] < y[k] {
      assert forall i | 0 <= i < k :: x[i] == x[..k][i] == y[..k][i] == y[i];
      assert k > 0 ==> x[0] == y[0];
      assert k > 1 ==> x[1] == y[1];
    }
  }

  /** `build` is the label of the descriptor, `r` and a number in every published one. */
  datatype Core = Core(version: Version, build: string)

  predicate IsDigit(c: char) {
    '0' <= c <= '9'
  }

  /** What the shell takes for an integer here. */
  predicate IsNumber(s: string) {
    s != "" && forall c | c in s :: IsDigit(c)
  }

  function Number(s: string): nat
    requires forall c | c in s :: IsDigit(c)
  {
    if s == "" then 0
    else
      assert IsDigit(s[|s| - 1]);
      Number(s[..|s| - 1]) * 10 + (s[|s| - 1] as int - '0' as int)
  }

  /** `${build#r}` */
  function Stripped(build: string): string {
    if build != "" && build[0] == 'r' then build[1..] else build
  }

  /** The pattern r[1-9]* */
  predicate Labelled(build: string) {
    |build| >= 2 && build[0] == 'r' && '1' <= build[1] <= '9'
  }

  /** The `compare` command: -1, 0 or 1. */
  function Compare(a: Version, b: Version): (c: int)
    ensures (c == -1 <==> a.Below(b)) && (c == 0 <==> a == b) && (c == 1 <==> b.Below(a))
  {
    if a.major != b.major then (if a.major < b.major then -1 else 1)
    else if a.minor != b.minor then (if a.minor < b.minor then -1 else 1)
    else if a.patch != b.patch then (if a.patch < b.patch then -1 else 1)
    else 0
  }

  /** The offered label is a number not below the installed one; a label that is no number never passes. */
  predicate BuildAllowed(offered: string, installed: string) {
    var a, b := Stripped(installed), Stripped(offered);
    IsNumber(a) && IsNumber(b) && Number(b) >= Number(a)
  }

  predicate Allows(offered: Core, installed: Core) {
    || installed.version.Below(offered.version)
    || (installed.version == offered.version
        && (Labelled(installed.build) ==> BuildAllowed(offered.build, installed.build)))
  }

  /** ts_core_check, branch by branch. An installed label that cannot be read counts as `legacy`. */
  method CheckOffer(version: Version, build: Option<string>, installed: Version, installedBuild: Option<string>) returns (ok: bool)
    ensures ok <==> (build.Some? || version != installed) &&
                    Allows(Core(version, if build.Some? then build.value else ""),
                           Core(installed, if installedBuild.Some? then installedBuild.value else "legacy"))
  {
    var comparison := Compare(version, installed);
    if comparison == -1 { return false; }
    if comparison == 0 {
      var current := if installedBuild.Some? then installedBuild.value else "legacy";
      if build.None? { return false; }
      if Labelled(current) {
        var a, b := Stripped(current), Stripped(build.value);
        if exists c | c in a + ":" + b :: !IsDigit(c) && c != ':' { return false; }
        // `[ -ge ]` fails on anything but two integers
        if !IsNumber(a) || !IsNumber(b) { return false; }
        return Number(b) >= Number(a);
      }
    }
    ok := true;
  }

  /** Each update is checked against what the one before it installed. */
  predicate Updates(cores: seq<Core>) {
    forall i | 0 < i < |cores| :: Allows(cores[i], cores[i - 1])
  }

  /** No sequence of updates ever leads below any version installed on the way, nor, as long as the labels of
      that version were of the published form, below any of its builds. */
  lemma {:induction false} UpdatesNeverFall(cores: seq<Core>, i: nat, j: nat)
    requires Updates(cores) && i <= j < |cores|
    ensures !Precedes(Tuple(cores[j].version), Tuple(cores[i].version)) && !cores[j].version.Below(cores[i].version)
    ensures i < j && cores[j].version == cores[i].version && (forall k | i <= k < j :: Labelled(cores[k].build)) ==>
              BuildAllowed(cores[j].build, cores[i].build)
    decreases j - i
  {
    BelowIsTupleOrder(cores[j].version, cores[i].version);
    if i < j {
      UpdatesNeverFall(cores, i, j - 1);
      assert Allows(cores[j], cores[j - 1]);
    }
  }

  /** What the `verify` command lets pass: `r` and one to six digits, the first of them not 0. */
  predicate Verified(build: string) {
    |build| <= 7 && Labelled(build) && forall c | c in build[1..] :: IsDigit(c)
  }

  /** The label of an installed core: that of a verified descriptor, or the word for one taken over. */
  predicate Installable(build: string) {
    Verified(build) || build == "legacy"
  }

  function BuildNumber(build: string): nat
    requires Verified(build)
  {
    Number(build[1..])
  }

  /** A verified core is offered exactly when its version is higher, or the same with a build number not below
      that of the installed core, if that has one. */
  lemma AllowedExactly(offered: Core, installed: Core)
    requires Verified(offered.build) && Installable(installed.build)
    ensures Allows(offered, installed) <==>
            || Precedes(Tuple(installed.version), Tuple(offered.version))
            || (installed.version == offered.version
                && (installed.build == "legacy" || BuildNumber(installed.build) <= BuildNumber(offered.build)))
  {
    BelowIsTupleOrder(installed.version, offered.version);
  }

  /** Over any sequence of updates to verified cores neither the version nor, within a version, the build
      number ever falls. */
  lemma VerifiedUpdatesNeverFall(cores: seq<Core>, i: nat, j: nat)
    requires Updates(cores) && i <= j < |cores|
    requires Installable(cores[0].build) && forall k | 0 < k < |cores| :: Verified(cores[k].build)
    ensures !Precedes(Tuple(cores[j].version), Tuple(cores[i].version))
    ensures cores[j].version == cores[i].version && Verified(cores[i].build) ==>
              Verified(cores[j].build) && BuildNumber(cores[j].build) >= BuildNumber(cores[i].build)
  {
    UpdatesNeverFall(cores, i, j);
  }

  /** Why the verification has to come first: an installed numbered label could be followed by a lower one of
      its version exactly if it did not begin like a verified one. */
  lemma VerificationIsNeeded(c: Core)
    requires IsNumber(Stripped(c.build)) && Number(Stripped(c.build)) > 0
    ensures (exists b :: Allows(Core(c.version, b), c) && IsNumber(Stripped(b)) && Number(Stripped(b)) < Number(Stripped(c.build)))
            <==> !Labelled(c.build)
  {
    if !Labelled(c.build) {
      var b := "0";
      assert Stripped(b) == "0" && IsNumber("0") && "0"[..0] == "" && Number("0") == 0;
      assert Allows(Core(c.version, b), c);
    }
  }
}
