/** Which Walnut a relaunched app installs: RuntimeUpgrade (desktop/AppUpdateMachine.swift:320-348) over
    the version BundledRuntime reads back from install.sh's link (desktop/BundledRuntime.swift:66-120). */
module RuntimeUpgrade {
  import opened Options
  import opened Text
  import opened Version

  // ------------------------------------------------------------------ the link

  function LinkedVersion(destination: Option<string>, installDir: string): Option<string> {
    if destination.None? then None
    else
      var d := destination.value;
      var dest := if installDir + "/versions/" <= d then "../" + d[|installDir| + 1..] else d;
      var parts := Pieces(dest, '/');
      if |parts| == 4 && parts[0] == ".." && parts[1] == "versions" && parts[3] == "walnut"
         && parts[2] != "" && parts[2][0] != '.'
      then Some(parts[2]) else None
  }

  /** A version install.sh can name a directory after. */
  predicate DirName(v: string) { v != "" && v[0] != '.' && '/' !in v }

  function RelativeLink(v: string): string { "../versions/" + v + "/walnut" }
  function FullLink(dir: string, v: string): string { dir + "/versions/" + v + "/walnut" }

  lemma RelativeIsJoin(v: string)
    ensures Join(["..", "versions", v, "walnut"], '/') == RelativeLink(v)
  {
    var p2 := [v, "walnut"];
    var p3 := ["versions"] + p2;
    var p4 := [".."] + p3;
    assert p2[1..] == ["walnut"] && p3[1..] == p2 && p4[1..] == p3;
    assert Join(p2, '/') == v + ['/'] + "walnut";
    assert Join(p3, '/') == "versions" + ['/'] + Join(p2, '/');
    assert Join(p4, '/') == ".." + ['/'] + Join(p3, '/');
    assert ".." + ['/'] + ("versions" + ['/'] + (v + ['/'] + "walnut")) == RelativeLink(v);
    assert p4 == ["..", "versions", v, "walnut"];
  }

  lemma RelativeLinkReadBack(v: string)
    requires '/' !in v
    ensures Pieces(RelativeLink(v), '/') == ["..", "versions", v, "walnut"]
  {
    RelativeIsJoin(v);
    PiecesOfJoin(["..", "versions", v, "walnut"], '/');
  }

  /** An install directory that is not written relative to a dot directory. */
  predicate Undotted(dir: string) { dir == "" || dir[0] != '.' }

  /** The link names v exactly when it is install.sh's, or one made by hand with v's full path. */
  lemma LinkedVersionIff(d: string, dir: string, v: string)
    requires Undotted(dir)
    ensures LinkedVersion(Some(d), dir) == Some(v) <==> DirName(v) && (d == FullLink(dir, v) || d == RelativeLink(v))
  {
    hide Pieces, Join;
    var full := dir + "/versions/";
    assert full[0] != '.';
    if DirName(v) {
      RelativeLinkReadBack(v);
      FullLinkRewrites(dir, v);
    }
    if LinkedVersion(Some(d), dir) == Some(v) { LinkedVersionMeans(d, dir, v); }
  }

  lemma LinkedVersionMeans(d: string, dir: string, v: string)
    requires LinkedVersion(Some(d), dir) == Some(v)
    ensures DirName(v) && (d == FullLink(dir, v) || d == RelativeLink(v))
  {
    hide Pieces, RelativeLink, FullLink;
    if dir + "/versions/" <= d {
      FromPieces("../" + d[|dir| + 1..], v);
      FromFullLink(d, dir, v);
    } else {
      FromPieces(d, v);
    }
  }

  lemma FromPieces(dest: string, v: string)
    requires |Pieces(dest, '/')| == 4 && Pieces(dest, '/')[0] == ".." && Pieces(dest, '/')[1] == "versions"
    requires Pieces(dest, '/')[2] == v && Pieces(dest, '/')[3] == "walnut"
    ensures dest == RelativeLink(v) && '/' !in v
  {
    hide Pieces, Join, RelativeLink;
    assert Pieces(dest, '/') == ["..", "versions", v, "walnut"];
    PieceIsClean(dest, '/', 2);
    JoinPieces(dest, '/');
    RelativeIsJoin(v);
  }

  lemma FromFullLink(d: string, dir: string, v: string)
    requires dir + "/versions/" <= d && "../" + d[|dir| + 1..] == RelativeLink(v)
    ensures d == FullLink(dir, v)
  {
    var full := dir + "/versions/";
    var dest := "../" + d[|dir| + 1..];
    assert dest[3..] == "versions/" + v + "/walnut";
    assert d == full[..|dir|] + ['/'] + dest[3..];
  }

  lemma FullLinkRewrites(dir: string, v: string)
    ensures var d := FullLink(dir, v);
            dir + "/versions/" <= d && "../" + d[|dir| + 1..] == RelativeLink(v)
  {
    var d := FullLink(dir, v);
    assert d == dir + "/versions/" + (v + "/walnut");
    assert d[|dir| + 1..] == "versions/" + v + "/walnut";
  }

  // ------------------------------------------------------------------ what is installed

  /** The install directory: the link, the versions whose file is there, and a Node archive, with the
      version its package.json gives. */
  datatype Install = Install(dir: string, link: Option<string>, versions: set<string>, archive: Option<Option<string>>)

  datatype Layout = NoLayout | File(version: string) | Archive

  function LayoutOf(i: Install): Layout {
    var v := LinkedVersion(i.link, i.dir);
    if v.Some? && v.value in i.versions then File(v.value)
    else if i.archive.Some? then Archive
    else NoLayout
  }

  function InstalledVersion(i: Install): Option<string> {
    match LayoutOf(i)
    case File(v) => Some(v)
    case Archive => i.archive.value
    case NoLayout => None
  }

  /** Swift's isNewer; None when it traps. */
  function Newer(a: string, b: string): Option<bool> {
    var c := Compare(a, b);
    if c.None? then None else Some(c.value > 0)
  }

  function ShouldInstallCarried(carried: Option<string>, installed: Option<string>, replacesArchive: bool)
    : Option<bool>
  {
    if carried.None? then Some(false)
    else if installed.None? then Some(true)
    else if replacesArchive then
      var n := Newer(installed.value, carried.value);
      if n.None? then None else Some(!n.value)
    else Newer(carried.value, installed.value)
  }

  function SetupKeepsFound(carried: Option<string>, i: Install): Option<bool> {
    var should := ShouldInstallCarried(carried, InstalledVersion(i), LayoutOf(i).Archive?);
    if should.None? then None else Some(!should.value)
  }

  /** install.sh puts v's file beside the others and points the link at it. */
  function InstallSh(i: Install, v: string): Install {
    i.(versions := i.versions + {v}, link := Some(RelativeLink(v)))
  }

  /** One launch of an app that carries `carried`; `ok`: install.sh succeeded (a failure changes nothing). */
  function Launch(i: Install, carried: Option<string>, ok: bool): Install {
    if ShouldInstallCarried(carried, InstalledVersion(i), LayoutOf(i).Archive?) == Some(true) && ok
    then InstallSh(i, carried.value) else i
  }

  lemma InstallShReadBack(i: Install, v: string)
    requires DirName(v) && Undotted(i.dir)
    ensures LayoutOf(InstallSh(i, v)) == File(v)
  {
    LinkedVersionIff(RelativeLink(v), i.dir, v);
  }

  /** What is installed: the version the link names, where its file is there; or else the archive. */
  lemma LayoutIff(i: Install, v: string)
    requires Undotted(i.dir)
    ensures LayoutOf(i) == File(v)
        <==> && DirName(v) && v in i.versions
             && (i.link == Some(FullLink(i.dir, v)) || i.link == Some(RelativeLink(v)))
    ensures LayoutOf(i).Archive? <==> i.archive.Some? && forall w :: LayoutOf(i) != File(w)
    ensures LayoutOf(i) == File(v) ==> InstalledVersion(i) == Some(v)
    ensures LayoutOf(i).Archive? ==> InstalledVersion(i) == i.archive.value
    ensures LayoutOf(i).NoLayout? ==> InstalledVersion(i) == None
  {
    if i.link.Some? { LinkedVersionIff(i.link.value, i.dir, v); }
  }

  /** When a launch whose install works puts its file in: over nothing it can read a version of, over a file only
      where its own is newer, and over an archive unless that is; otherwise all stays as it is. A setup keeps what it
      finds exactly where that launch would. */
  lemma LaunchInstallsIff(i: Install, v: string)
    requires DirName(v) && Undotted(i.dir)
    requires InstalledVersion(i).Some? ==> Compare(InstalledVersion(i).value, v).Some?
    ensures var j, b := Launch(i, Some(v), true), InstalledVersion(i);
            var installs := || b.None?
                            || (LayoutOf(i).Archive? && Compare(b.value, v).value <= 0)
                            || (LayoutOf(i).File? && Compare(v, b.value) != None && Compare(v, b.value).value > 0);
            && (installs ==> LayoutOf(j) == File(v) && InstalledVersion(j) == Some(v))
            && (!installs ==> j == i)
            && SetupKeepsFound(Some(v), i) == Some(!installs) && SetupKeepsFound(None, i) == Some(true)
            && Launch(i, Some(v), false) == i && Launch(i, None, true) == i
  {
    hide LinkedVersion, Parse, CompareParsed;
    InstallShReadBack(i, v);
  }

  // ------------------------------------------------------------------ over launches

  /** After one install that worked, the same app reinstalls nothing, and a setup keeps what it finds. */
  lemma LaunchReachesFixpoint(i: Install, v: string, ok: bool)
    requires DirName(v) && Undotted(i.dir) && Compare(v, v).Some?
    ensures var j := Launch(i, Some(v), true);
            && Launch(j, Some(v), ok) == j
            && (j != i || InstalledVersion(i).Some? ==>
                  ShouldInstallCarried(Some(v), InstalledVersion(j), LayoutOf(j).Archive?) != Some(true)
                  && SetupKeepsFound(Some(v), j) != Some(false))
  {
    hide LinkedVersion, Parse;
    var j := Launch(i, Some(v), true);
    if ShouldInstallCarried(Some(v), InstalledVersion(i), LayoutOf(i).Archive?) == Some(true) {
      InstallShReadBack(i, v);
      CompareSelf(v);
    }
  }

  lemma CompareSelf(v: string)
    requires Compare(v, v).Some?
    ensures Compare(v, v) == Some(0)
  {
    if Parse(v).Version? {
      CompareCoreZeroIff(Parse(v).core, Parse(v).core);
      CompareIdsZeroIff(Parse(v).pre, Parse(v).pre);
    }
  }

  /** One launch installs something older exactly when its install works, the file it replaces is not an
      archive, and the two versions' first different identifiers are one number written two ways. */
  lemma LaunchDowngradesIff(i: Install, v: string, ok: bool)
    requires DirName(v) && Undotted(i.dir) && InstalledVersion(i).Some?
    requires Compare(InstalledVersion(i).value, v).Some?
    ensures var b, j := InstalledVersion(i).value, Launch(i, Some(v), ok);
            && InstalledVersion(j).Some? && (InstalledVersion(j) == Some(b) || InstalledVersion(j) == Some(v))
            && Compare(b, InstalledVersion(j).value).Some?
            && (Compare(b, InstalledVersion(j).value).value > 0
                <==> ok && LayoutOf(i).File? && Ambiguous(Parse(b), Parse(v)))
  {
    hide LinkedVersion, Parse, CompareParsed, Ambiguous;
    var b := InstalledVersion(i).value;
    CompareAntisymmetricIff(b, v);
    CompareSelf(b);
    InstallShReadBack(i, v);
  }

  datatype Launched = Launched(carried: Option<string>, ok: bool)

  function Launches(i: Install, ls: seq<Launched>): Install
    decreases |ls|
  {
    if ls == [] then i else Launches(Launch(i, ls[0].carried, ls[0].ok), ls[1..])
  }

  /** Versions compare takes, each a directory's name. */
  ghost predicate Releases(vs: set<string>) {
    forall v <- vs :: DirName(v) && Compare(v, v).Some?
  }

  ghost predicate NoneAmbiguous(vs: set<string>) {
    forall v, w :: v in vs && w in vs ==> !Ambiguous(Parse(v), Parse(w))
  }

  predicate Carry(ls: seq<Launched>, vs: set<string>) {
    forall l <- ls :: l.carried.Some? ==> l.carried.value in vs
  }

  /** What is installed after any launches is of the same releases and not below what was there before. */
  ghost predicate NotLower(i: Install, j: Install, vs: set<string>) {
    && j.dir == i.dir && InstalledVersion(i).Some? && InstalledVersion(j).Some? && InstalledVersion(j).value in vs
    && Compare(InstalledVersion(i).value, InstalledVersion(j).value).Some?
    && Compare(InstalledVersion(i).value, InstalledVersion(j).value).value <= 0
  }

  lemma LaunchNotLower(i: Install, l: Launched, vs: set<string>)
    requires Undotted(i.dir) && InstalledVersion(i).Some? && InstalledVersion(i).value in vs
    requires Releases(vs) && NoneAmbiguous(vs) && (l.carried.Some? ==> l.carried.value in vs)
    ensures NotLower(i, Launch(i, l.carried, l.ok), vs)
  {
    hide LinkedVersion, Parse, CompareParsed, Ambiguous, Launch, LayoutOf, InstalledVersion;
    var b := InstalledVersion(i).value;
    CompareSelf(b);
    if l.carried.Some? {
      LaunchDowngradesIff(i, l.carried.value, l.ok);
      SameDir(i, l.carried, l.ok);
    } else {
      CarriesNothing(i, l.ok);
    }
  }

  lemma SameDir(i: Install, carried: Option<string>, ok: bool)
    ensures Launch(i, carried, ok).dir == i.dir
  {
  }

  lemma CarriesNothing(i: Install, ok: bool)
    ensures Launch(i, None, ok) == i
  {
  }

  lemma {:induction false} LaunchesNotLower(i: Install, ls: seq<Launched>, vs: set<string>)
    requires Undotted(i.dir) && InstalledVersion(i).Some? && InstalledVersion(i).value in vs
    requires Releases(vs) && NoneAmbiguous(vs) && Carry(ls, vs)
    ensures NotLower(i, Launches(i, ls), vs)
    decreases |ls|
  {
    hide LinkedVersion, Parse, CompareParsed, Ambiguous, Launch, LayoutOf, InstalledVersion;
    CompareSelf(InstalledVersion(i).value);
    if ls != [] {
      var j := Launch(i, ls[0].carried, ls[0].ok);
      LaunchNotLower(i, ls[0], vs);
      LaunchesNotLower(j, ls[1..], vs);
      CompareIsPreorder(InstalledVersion(i).value, InstalledVersion(j).value, InstalledVersion(Launches(i, ls)).value);
    }
  }

  predicate InstalledIn(i: Install, dir: string, vs: set<string>) {
    i.dir == dir && InstalledVersion(i).Some? && InstalledVersion(i).value in vs
  }

  /** A file install.sh put there. */
  function FreshInstall(dir: string, v: string): Install { Install(dir, Some(RelativeLink(v)), {v}, None) }

  /** Whatever apps with these releases are launched, in whatever order, with installs that work or fail, and
      whichever of the releases is there at first, none is ever replaced by an older one: exactly when no two
      of the releases are one number written two ways. */
  lemma LaunchesNeverDowngradeIff(dir: string, vs: set<string>)
    requires Undotted(dir) && Releases(vs)
    ensures (forall i: Install, ls :: InstalledIn(i, dir, vs) && Carry(ls, vs) ==> NotLower(i, Launches(i, ls), vs))
        <==> NoneAmbiguous(vs)
  {
    hide LinkedVersion, Parse, CompareParsed, Ambiguous, Launch, LayoutOf, InstalledVersion, NotLower, Carry;
    if NoneAmbiguous(vs) {
      forall i: Install, ls | InstalledIn(i, dir, vs) && Carry(ls, vs)
        ensures NotLower(i, Launches(i, ls), vs)
      {
        LaunchesNotLower(i, ls, vs);
      }
    } else {
      var v, w :| v in vs && w in vs && Ambiguous(Parse(v), Parse(w));
      AmbiguousDowngrades(dir, v, w, vs);
    }
  }

  lemma AmbiguousDowngrades(dir: string, v: string, w: string, vs: set<string>)
    requires Undotted(dir) && Releases(vs) && v in vs && w in vs && Ambiguous(Parse(v), Parse(w))
    ensures InstalledVersion(FreshInstall(dir, v)) == Some(v) && Carry([Launched(Some(w), true)], vs)
    ensures !NotLower(FreshInstall(dir, v), Launches(FreshInstall(dir, v), [Launched(Some(w), true)]), vs)
  {
    hide LinkedVersion, Parse, CompareParsed, Ambiguous, Launch;
    var i := FreshInstall(dir, v);
    InstallShReadBack(Install(dir, None, {}, None), v);
    assert i == InstallSh(Install(dir, None, {}, None), v);
    LaunchDowngradesIff(i, w, true);
    assert [Launched(Some(w), true)][1..] == [];
  }

  /** Two apps whose releases are one number written two ways take turns installing theirs. */
  lemma TakingTurns(i: Install)
    requires Undotted(i.dir) && LayoutOf(i) == File("1.0.0-1")
    ensures LayoutOf(Launch(i, Some("1.0.0-01"), true)) == File("1.0.0-01")
    ensures LayoutOf(Launch(Launch(i, Some("1.0.0-01"), true), Some("1.0.0-1"), true)) == File("1.0.0-1")
  {
    hide LinkedVersion, Parse, CompareParsed;
    LeadingZeroNewerBothWays();
    assert DirName("1.0.0-01") && DirName("1.0.0-1");
    InstallShReadBack(i, "1.0.0-01");
    InstallShReadBack(InstallSh(i, "1.0.0-01"), "1.0.0-1");
  }
}
