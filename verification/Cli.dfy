/** The two commands of the command-line tool. `update` is a straight line of
    side effects with an early return; every effect is recorded as a step of
    a trace, in the order the command performs it. The foreign calls become
    inputs: the configuration record, the release information, the version
    string read from the installed executable, and the process table. */
module Cli {
  import opened Results
  import opened Strings
  import opened Paths
  import opened Versions
  import opened Http
  import opened Assets
  import opened Processes

  /** The parsed configuration file; `proxy` is the only optional key. */
  datatype Config = Config(url: string, path: string, pattern: string, unzip: string, proxy: Option<string>)

  /** The part of the release JSON the command reads. */
  datatype Release = Release(tagName: string, assets: seq<Asset>)

  datatype Step =
    | Echo(line: string)
    | FetchRelease(request: Get)
    | ReadVersion(path: string)
    | OpenArchive(path: string)
    | Download(request: Get, into: string)
    | KillProcesses(path: string)
    | CloseArchive(path: string)
    | Extract(workdir: string, command: seq<string>)

  datatype UpdateError = BadVersion(version: VersionError) | BadAsset(asset: SelectError)

  datatype Outcome = UpToDate | Updated | Failed(error: UpdateError)

  /** What one run of `update` did, and how it ended. */
  datatype Session = Session(outcome: Outcome, trace: seq<Step>)

  const ArchiveName: string := "clash.for.windows.7z"

  /** Where the download is written: beside the installed executable. */
  function ArchivePath(path: string): (r: string)
    ensures |Dirname(path)| + |ArchiveName| <= |r|
    ensures r[..|Dirname(path)|] == Dirname(path)
    ensures r[|r| - |ArchiveName|..] == ArchiveName
  {
    assert ArchiveName[0] == 'c';
    JoinSpec(Dirname(path), ArchiveName);
    Paths.Join(Dirname(path), ArchiveName)
  }

  /** The 7-Zip command line: extract with full paths, answering yes to
      every overwrite prompt. */
  function ExtractCommand(unzip: string, archive: string): (cmd: seq<string>)
    ensures |cmd| == 4 && cmd[0] == unzip && cmd[1] == "x" && cmd[2] == "-y" && cmd[3] == archive
  {
    [unzip, "x", "-y", archive]
  }

  /** `parse_version(current) >= parse_version(latest)`; the installed
      version is parsed first, so its error wins when both are malformed. */
  function IsUpToDate(current: string, latest: string): (r: Result<bool, VersionError>)
    ensures r.Ok? <==> ParseVersion(current).Ok? && ParseVersion(latest).Ok?
    ensures r.Ok? ==> r.value == AtLeast(ParseVersion(current).value, ParseVersion(latest).value)
    ensures r.Err? ==> r.error == if ParseVersion(current).Err? then ParseVersion(current).error
                                  else ParseVersion(latest).error
  {
    var cur :- ParseVersion(current);
    var lat :- ParseVersion(latest);
    Ok(AtLeast(cur, lat))
  }

  /** The first line `update` prints: a proxy is announced only when it is
      a non-empty string. */
  function ProxyLine(proxy: Option<string>): (r: string)
    ensures r == "Update without proxy" <==> proxy.None? || proxy.value == ""
    ensures r != "Update without proxy" ==> r == "Using proxy: " + proxy.value
  {
    if proxy.Some? && proxy.value != "" then
      assert ("Using proxy: " + proxy.value)[1] == 's';
      "Using proxy: " + proxy.value
    else "Update without proxy"
  }

  /** The steps every run performs before the versions are compared. */
  function Prelude(cfg: Config, release: Release, current: string): seq<Step> {
    [ Echo(ProxyLine(cfg.proxy)),
      FetchRelease(Request(cfg.url, cfg.proxy)),
      Echo("Latest version: " + release.tagName),
      ReadVersion(cfg.path),
      Echo("Current version: " + current) ]
  }

  /** The steps after the download URL is known. */
  function Install(cfg: Config, url: string): seq<Step> {
    var archive := ArchivePath(cfg.path);
    [ Echo(url),
      OpenArchive(archive),
      Echo("Start downloading file..."),
      Download(Request(url, cfg.proxy), archive),
      Echo("Killing running process..."),
      KillProcesses(cfg.path),
      CloseArchive(archive),
      Echo("Extracting zip file..."),
      Extract(Dirname(cfg.path), ExtractCommand(cfg.unzip, archive)) ]
  }

  /** One run of `update`. */
  function UpdateSession(cfg: Config, release: Release, current: string, matches: Matcher): (r: Session)
    ensures Prelude(cfg, release, current) <= r.trace
    ensures |r.trace| == match r.outcome
      case UpToDate => 6
      case Updated => 14
      case Failed(_) => 5
  {
    var prelude := Prelude(cfg, release, current);
    match IsUpToDate(current, release.tagName)
    case Err(e) => Session(Failed(BadVersion(e)), prelude)
    case Ok(true) => Session(UpToDate, prelude + [Echo("Up to date.")])
    case Ok(false) =>
      match GetDownloadUrl(release.assets, cfg.pattern, matches)
      case Err(e) => Session(Failed(BadAsset(e)), prelude)
      case Ok(url) => Session(Updated, prelude + Install(cfg, url))
  }

  /** The steps with an effect beyond the terminal: everything but echoes. */
  function Effects(trace: seq<Step>): (r: seq<Step>)
    ensures |r| <= |trace|
  {
    if trace == [] then []
    else if trace[0].Echo? then Effects(trace[1..])
    else [trace[0]] + Effects(trace[1..])
  }

  /** Effects keeps exactly the steps that are not echoes. */
  lemma {:induction false} EffectsMembers(trace: seq<Step>, x: Step)
    ensures x in Effects(trace) <==> x in trace && !x.Echo?
  {
    if trace != [] {
      EffectsMembers(trace[1..], x);
      assert trace == [trace[0]] + trace[1..];
    }
  }

  lemma {:induction false} EffectsAppend(a: seq<Step>, b: seq<Step>)
    ensures Effects(a + b) == Effects(a) + Effects(b)
  {
    if a == [] {
      assert a + b == b;
    } else {
      assert (a + b)[1..] == a[1..] + b;
      EffectsAppend(a[1..], b);
    }
  }

  lemma EchoesOnly(trace: seq<Step>)
    requires forall i :: 0 <= i < |trace| ==> trace[i].Echo?
    ensures Effects(trace) == []
  {
    if Effects(trace) != [] {
      EffectsMembers(trace, Effects(trace)[0]);
    }
  }

  /** The echoes of the `config` command: a flag prints as True or False,
      an absent option as an empty line. */
  function ConfigEchoes(listConf: bool, setConf: Option<string>, removeConf: Option<string>): (r: seq<Step>)
    ensures |r| == 3 && Effects(r) == []
    ensures r[0] == Echo(if listConf then "True" else "False")
    ensures setConf.Some? ==> r[1] == Echo(setConf.value)
    ensures removeConf.Some? ==> r[2] == Echo(removeConf.value)
    ensures setConf.None? ==> r[1] == Echo("")
    ensures removeConf.None? ==> r[2] == Echo("")
  {
    var r := [ Echo(if listConf then "True" else "False"),
               Echo(if setConf.Some? then setConf.value else ""),
               Echo(if removeConf.Some? then removeConf.value else "") ];
    EchoesOnly(r);
    r
  }

  lemma EffectsFrom(t: seq<Step>, k: nat)
    requires k < |t|
    ensures Effects(t[k..]) == (if t[k].Echo? then [] else [t[k]]) + Effects(t[k + 1..])
  {
    assert t[k..][1..] == t[k + 1..];
  }

  lemma EffectsOfPrelude(cfg: Config, release: Release, current: string)
    ensures Effects(Prelude(cfg, release, current)) == [FetchRelease(Request(cfg.url, cfg.proxy)), ReadVersion(cfg.path)]
  {
    var t := Prelude(cfg, release, current);
    EffectsFrom(t, 4);
    EffectsFrom(t, 3);
    EffectsFrom(t, 2);
    EffectsFrom(t, 1);
    EffectsFrom(t, 0);
    assert t[5..] == [] && t[0..] == t;
  }

  lemma EffectsOfInstall(cfg: Config, url: string)
    ensures var archive := ArchivePath(cfg.path);
      Effects(Install(cfg, url)) ==
        [ OpenArchive(archive),
          Download(Request(url, cfg.proxy), archive),
          KillProcesses(cfg.path),
          CloseArchive(archive),
          Extract(Dirname(cfg.path), ExtractCommand(cfg.unzip, archive)) ]
  {
    var t := Install(cfg, url);
    EffectsOfInstallShape(t);
  }

  /** Echoes sit at positions 0, 2, 4 and 7 of the installation phase. */
  lemma EffectsOfInstallShape(t: seq<Step>)
    requires |t| == 9
    requires t[0].Echo? && t[2].Echo? && t[4].Echo? && t[7].Echo?
    requires !t[1].Echo? && !t[3].Echo? && !t[5].Echo? && !t[6].Echo? && !t[8].Echo?
    ensures Effects(t) == [t[1], t[3], t[5], t[6], t[8]]
  {
    EffectsOfInstallFront(t);
    EffectsOfInstallBack(t);
  }

  lemma EffectsOfInstallFront(t: seq<Step>)
    requires |t| == 9
    requires t[0].Echo? && t[2].Echo? && t[4].Echo?
    requires !t[1].Echo? && !t[3].Echo?
    ensures Effects(t) == [t[1], t[3]] + Effects(t[5..])
  {
    var t2, t4 := t[2..], t[4..];
    EchoThenEffect(t);
    EchoThenEffect(t2);
    assert t2[2..] == t4 && t4[1..] == t[5..];
    assert Effects(t4) == Effects(t[5..]);
  }

  /** An echo followed by an effect contributes just that effect. */
  lemma EchoThenEffect(t: seq<Step>)
    requires |t| >= 2
    requires t[0].Echo? && !t[1].Echo?
    ensures Effects(t) == [t[1]] + Effects(t[2..])
  {
    assert t[1..][1..] == t[2..];
  }

  lemma EffectsOfInstallBack(t: seq<Step>)
    requires |t| == 9
    requires t[7].Echo?
    requires !t[5].Echo? && !t[6].Echo? && !t[8].Echo?
    ensures Effects(t[5..]) == [t[5], t[6], t[8]]
  {
    EffectsFrom(t, 8);
    EffectsFrom(t, 7);
    EffectsFrom(t, 6);
    EffectsFrom(t, 5);
    assert t[9..] == [];
  }

  /** The outcome of a run is decided by the version comparison first and by
      the asset selection second. */
  lemma OutcomeCases(cfg: Config, release: Release, current: string, matches: Matcher)
    ensures var s := UpdateSession(cfg, release, current, matches);
      && (s.outcome == UpToDate <==> IsUpToDate(current, release.tagName) == Ok(true))
      && (s.outcome == Updated <==>
            IsUpToDate(current, release.tagName) == Ok(false)
            && GetDownloadUrl(release.assets, cfg.pattern, matches).Ok?)
      && (s.outcome.Failed? && s.outcome.error.BadVersion? <==> IsUpToDate(current, release.tagName).Err?)
      && (s.outcome.Failed? && s.outcome.error.BadAsset? <==>
            IsUpToDate(current, release.tagName) == Ok(false)
            && GetDownloadUrl(release.assets, cfg.pattern, matches).Err?)
  {
  }

  /** When the installed version is at least the latest one, the run prints
      "Up to date." and stops: after fetching the release information and
      reading the installed version nothing else happens, and neither the
      assets nor the pattern are looked at. */
  lemma UpToDateStopsEarly(cfg: Config, release: Release, current: string, matches: Matcher,
                           otherPattern: string, otherAssets: seq<Asset>, otherMatches: Matcher)
    requires IsUpToDate(current, release.tagName) == Ok(true)
    ensures var s := UpdateSession(cfg, release, current, matches);
      && s.outcome == UpToDate
      && Effects(s.trace) == [FetchRelease(Request(cfg.url, cfg.proxy)), ReadVersion(cfg.path)]
      && s.trace[|s.trace| - 1] == Echo("Up to date.")
      && s == UpdateSession(cfg.(pattern := otherPattern), release.(assets := otherAssets), current, otherMatches)
  {
    EffectsOfPrelude(cfg, release, current);
    EffectsAppend(Prelude(cfg, release, current), [Echo("Up to date.")]);
  }

  /** A run that fails has fetched the release information and read the
      installed version, and has done nothing else. */
  lemma FailureStopsEarly(cfg: Config, release: Release, current: string, matches: Matcher)
    requires UpdateSession(cfg, release, current, matches).outcome.Failed?
    ensures Effects(UpdateSession(cfg, release, current, matches).trace)
            == [FetchRelease(Request(cfg.url, cfg.proxy)), ReadVersion(cfg.path)]
  {
    EffectsOfPrelude(cfg, release, current);
  }

  /** When an update is needed and one asset matches, the selected URL is
      printed first, and then the effects happen in exactly this order:
      fetch, read the version, open the archive beside the executable,
      download into it, kill the executable's processes, close the archive,
      extract it in the executable's directory. */
  lemma UpdateStepOrder(cfg: Config, release: Release, current: string, matches: Matcher, url: string)
    requires IsUpToDate(current, release.tagName) == Ok(false)
    requires GetDownloadUrl(release.assets, cfg.pattern, matches) == Ok(url)
    ensures var s := UpdateSession(cfg, release, current, matches);
      var archive := ArchivePath(cfg.path);
      && s.outcome == Updated
      && s.trace[|Prelude(cfg, release, current)|] == Echo(url)
      && Effects(s.trace) ==
           [ FetchRelease(Request(cfg.url, cfg.proxy)),
             ReadVersion(cfg.path),
             OpenArchive(archive),
             Download(Request(url, cfg.proxy), archive),
             KillProcesses(cfg.path),
             CloseArchive(archive),
             Extract(Dirname(cfg.path), [cfg.unzip, "x", "-y", archive]) ]
  {
    EffectsOfPrelude(cfg, release, current);
    EffectsOfInstall(cfg, url);
    EffectsAppend(Prelude(cfg, release, current), Install(cfg, url));
  }

  /** The configured proxy reaches both requests unchanged, while only a
      non-empty proxy is announced. */
  lemma ProxyHandling(cfg: Config, release: Release, current: string, matches: Matcher)
    ensures var s := UpdateSession(cfg, release, current, matches);
      && s.trace[0] == (if cfg.proxy.Some? && cfg.proxy.value != "" then Echo("Using proxy: " + cfg.proxy.value)
                        else Echo("Update without proxy"))
      && (forall i :: 0 <= i < |s.trace| && (s.trace[i].FetchRelease? || s.trace[i].Download?) ==>
            s.trace[i].request.proxies == Proxies(cfg.proxy))
  {
    var s := UpdateSession(cfg, release, current, matches);
    var prelude := Prelude(cfg, release, current);
    assert s.trace[0] == prelude[0];
    forall i | 0 <= i < |s.trace| && (s.trace[i].FetchRelease? || s.trace[i].Download?)
      ensures s.trace[i].request.proxies == Proxies(cfg.proxy)
    {
      if i < |prelude| {
        assert s.trace[i] == prelude[i];
      } else {
        var url := GetDownloadUrl(release.assets, cfg.pattern, matches).value;
        assert s.trace == prelude + Install(cfg, url);
        assert s.trace[i] == Install(cfg, url)[i - |prelude|];
      }
    }
  }

  /** An empty proxy string is announced as no proxy, yet both schemes are
      still routed through it. */
  lemma EmptyProxyExample(cfg: Config, release: Release, current: string, matches: Matcher)
    requires cfg.proxy == Some("")
    ensures var s := UpdateSession(cfg, release, current, matches);
      && s.trace[0] == Echo("Update without proxy")
      && s.trace[1] == FetchRelease(Get(cfg.url, Some(map["http" := "", "https" := ""]), "Mozilla/5.0"))
  {
  }

  /** The archive's file name is a plain name, without a directory part. */
  lemma ArchiveNameHasNoSep()
    ensures NoSep(ArchiveName)
  {
  }

  /** The archive lies in the directory of the executable and is named
      clash.for.windows.7z. */
  lemma ArchiveBesideExecutable(path: string)
    ensures Dirname(ArchivePath(path)) == Dirname(path)
    ensures Basename(ArchivePath(path)) == ArchiveName
  {
    var d := Dirname(path);
    DirnameSpec(path);
    ArchiveNameHasNoSep();
    JoinSplits(d, ArchiveName);
  }

  lemma ParseRendered(v: Version, s: string)
    requires s == Render(v)
    ensures ParseVersion(s) == Ok(v)
  {
    ParseRender(v, "");
    assert s + "" == s;
  }

  /** Installed 1.5.0 with 1.5.0 released: up to date, nothing downloaded,
      killed or extracted. */
  lemma SameVersionExample(cfg: Config, assets: seq<Asset>, matches: Matcher)
    ensures var s := UpdateSession(cfg, Release("1.5.0", assets), "1.5.0", matches);
      && s.outcome == UpToDate
      && forall i :: 0 <= i < |s.trace| ==> !s.trace[i].Download? && !s.trace[i].KillProcesses? && !s.trace[i].Extract?
  {
  }

  /** Installed 1.4.0 with 1.5.0 released and one asset matching: the asset
      is downloaded, the executable's processes are killed and the archive
      is extracted, and the run succeeds. */
  lemma NewerVersionExample(cfg: Config, assets: seq<Asset>, matches: Matcher, i: nat)
    requires i < |assets| && matches(cfg.pattern, assets[i].name)
    requires forall j :: 0 <= j < |assets| && j != i ==> !matches(cfg.pattern, assets[j].name)
    ensures var s := UpdateSession(cfg, Release("1.5.0", assets), "1.4.0", matches);
      var archive := ArchivePath(cfg.path);
      && s.outcome == Updated
      && Download(Request(assets[i].browserDownloadUrl, cfg.proxy), archive) in s.trace
      && KillProcesses(cfg.path) in s.trace
      && Extract(Dirname(cfg.path), [cfg.unzip, "x", "-y", archive]) in s.trace
  {
    ParseRendered(Version(1, 5, 0), "1.5.0");
    ParseRendered(Version(1, 4, 0), "1.4.0");
    UniqueMatchSelected(assets, cfg.pattern, matches, i);
    UpdateStepOrder(cfg, Release("1.5.0", assets), "1.4.0", matches, assets[i].browserDownloadUrl);
  }

  /** The machine the tool runs on, as far as the two commands touch it:
      what has been done so far and the process table. */
  class Host {
    var trace: seq<Step>
    const procs: array<Process>

    constructor (procs: array<Process>)
      ensures trace == [] && this.procs == procs
    {
      trace := [];
      this.procs := procs;
    }

    /** The `update` command. */
    method Update(cfg: Config, release: Release, current: string, matches: Matcher) returns (outcome: Outcome)
      modifies this`trace, procs
      ensures outcome == UpdateSession(cfg, release, current, matches).outcome
      ensures trace == old(trace) + UpdateSession(cfg, release, current, matches).trace
      ensures procs[..] == if outcome.Updated? then KillNamed(old(procs[..]), Basename(cfg.path))
                           else old(procs[..])
    {
      ghost var session := UpdateSession(cfg, release, current, matches);
      Announce(cfg, release, current);

      var cur := ParseVersion(current);
      if cur.Err? {
        assert session == Session(Failed(BadVersion(cur.error)), Prelude(cfg, release, current));
        return Failed(BadVersion(cur.error));
      }
      var latest := ParseVersion(release.tagName);
      if latest.Err? {
        assert session == Session(Failed(BadVersion(latest.error)), Prelude(cfg, release, current));
        return Failed(BadVersion(latest.error));
      }
      if AtLeast(cur.value, latest.value) {
        trace := trace + [Echo("Up to date.")];
        assert session == Session(UpToDate, Prelude(cfg, release, current) + [Echo("Up to date.")]);
        return UpToDate;
      }

      var selected := GetDownloadUrl(release.assets, cfg.pattern, matches);
      if selected.Err? {
        assert session == Session(Failed(BadAsset(selected.error)), Prelude(cfg, release, current));
        return Failed(BadAsset(selected.error));
      }
      assert session == Session(Updated, Prelude(cfg, release, current) + Install(cfg, selected.value));
      Replace(cfg, selected.value);
      outcome := Updated;
    }

    /** cli.py:21-30: announce the proxy, fetch the release information and
        read the installed version. */
    method Announce(cfg: Config, release: Release, current: string)
      modifies this`trace
      ensures trace == old(trace) + Prelude(cfg, release, current)
    {
      trace := trace + [Echo(ProxyLine(cfg.proxy))];
      trace := trace + [FetchRelease(Request(cfg.url, cfg.proxy))];
      trace := trace + [Echo("Latest version: " + release.tagName)];
      trace := trace + [ReadVersion(cfg.path)];
      trace := trace + [Echo("Current version: " + current)];
    }

    /** cli.py:37-49: download the archive, stop the running program and
        unpack the archive over the installation. */
    method Replace(cfg: Config, url: string)
      modifies this`trace, procs
      ensures trace == old(trace) + Install(cfg, url)
      ensures procs[..] == KillNamed(old(procs[..]), Basename(cfg.path))
    {
      var archive := ArchivePath(cfg.path);
      var fetching := [ Echo(url),
                        OpenArchive(archive),
                        Echo("Start downloading file..."),
                        Download(Request(url, cfg.proxy), archive),
                        Echo("Killing running process...") ];
      trace := trace + fetching;
      KillProcess(cfg.path, procs);
      var unpacking := [ KillProcesses(cfg.path),
                         CloseArchive(archive),
                         Echo("Extracting zip file..."),
                         Extract(Dirname(cfg.path), ExtractCommand(cfg.unzip, archive)) ];
      trace := trace + unpacking;
      assert Install(cfg, url) == fetching + unpacking;
    }

    /** The `config` command: it prints its three options and changes
        nothing else. */
    method ConfigCommand(listConf: bool, setConf: Option<string>, removeConf: Option<string>)
      modifies this`trace
      ensures trace == old(trace) + ConfigEchoes(listConf, setConf, removeConf)
    {
      trace := trace + [Echo(if listConf then "True" else "False")];
      trace := trace + [Echo(if setConf.Some? then setConf.value else "")];
      trace := trace + [Echo(if removeConf.Some? then removeConf.value else "")];
    }
  }
}
