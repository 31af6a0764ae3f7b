/**
 * Properties of a whole run of `execute`: when it is refused, what it
 * reports, which inputs its outcome depends on, and what a successful
 * install of a new site leaves on disk.
 */
module Execution {
  import opened Types
  import opened FileTree
  import opened Templating
  import opened Arguments
  import opened Commands
  import opened Installer
  import opened Layout

  /** An existing target other than the working directory stops the run before anything is touched. */
  lemma ExistingSiteRefused(t: Tree, cwd: Path, input: Input, latest: Option<string>,
                            created: Tree, exitCode: int)
    requires WpVersion(input.wpversion, latest).Ok?
    requires CanonicalPath(cwd) && Truthy(input.name) && CanonicalName(input.name.value)
    requires TargetDirectory(cwd, input.name) in t
    ensures ExecuteSpec(t, cwd, input, latest, created, exitCode)
            == RunEffect(Err(SiteExists(TargetDirectory(cwd, input.name))), t)
  {
    NamedTargetIsBelowCwd(cwd, input.name);
  }

  /** Without a name the run works in the working directory and is never refused as an existing site. */
  lemma WorkingDirectoryNeverRefused(t: Tree, cwd: Path, input: Input, latest: Option<string>,
                                     created: Tree, exitCode: int)
    requires !Truthy(input.name)
    ensures var r := ExecuteSpec(t, cwd, input, latest, created, exitCode).result;
            r.Err? ==> !r.error.SiteExists?
  {
    UnnamedTargetIsCwd(cwd, input.name);
    match Resolve(cwd, input, latest)
    case Err(e) =>
      assert e == VersionLookupFailed;
    case Ok(s) =>
      FinishErrors(t + created, cwd, s.wpdirectory);
  }

  /** The relocation and the cleanup only ever fail with a missing source or a wrong kind of node. */
  lemma FinishErrors(t: Tree, d: Path, w: string)
    ensures FinishSpec(t, d, w).outcome.Fail? ==>
              FinishSpec(t, d, w).outcome.error.NotFound? || FinishSpec(t, d, w).outcome.error.WrongKind?
  {
  }

  /** When no version is given and the tag lookup fails, the run aborts with the tree untouched. */
  lemma LookupFailureAborts(t: Tree, cwd: Path, input: Input, latest: Option<string>,
                            created: Tree, exitCode: int)
    requires !Truthy(input.wpversion) && latest.None?
    ensures ExecuteSpec(t, cwd, input, latest, created, exitCode) == RunEffect(Err(VersionLookupFailed), t)
  {
    LookupDecidesDefaultVersion(cwd, input, latest);
  }

  /**
   * A new named target whose way down from the root runs through a file
   * makes `mkdir` throw: the run aborts with the tree untouched and the
   * shell command never runs.
   */
  lemma MkdirOntoFileAborts(t: Tree, cwd: Path, input: Input, latest: Option<string>,
                            created: Tree, exitCode: int, a: Path)
    requires Truthy(input.name) && WpVersion(input.wpversion, latest).Ok?
    requires TargetDirectory(cwd, input.name) !in t
    requires a in Chain(TargetDirectory(cwd, input.name)) && a in t && t[a].File?
    ensures ExecuteSpec(t, cwd, input, latest, created, exitCode)
            == RunEffect(Err(WrongKind(TargetDirectory(cwd, input.name))), t)
  {
    NamedTargetIsBelowCwd(cwd, input.name);
    MkdirFailsOnFile(t, TargetDirectory(cwd, input.name), a);
  }

  /** A given version makes the tag lookup irrelevant. */
  lemma ExplicitVersionSkipsLookup(t: Tree, cwd: Path, input: Input, latest1: Option<string>,
                                   latest2: Option<string>, created: Tree, exitCode: int)
    requires Truthy(input.wpversion)
    ensures ExecuteSpec(t, cwd, input, latest1, created, exitCode)
            == ExecuteSpec(t, cwd, input, latest2, created, exitCode)
  {
    ExplicitVersionIgnoresLookup(cwd, input, latest1, latest2);
  }

  /**
   * The shell command's exit code is reported and nothing more: the later
   * steps run, and leave the same tree, whatever it is.
   */
  lemma ExitCodeOnlyReported(t: Tree, cwd: Path, input: Input, latest: Option<string>,
                             created: Tree, code1: int, code2: int)
    ensures ExecuteSpec(t, cwd, input, latest, created, code1).tree
            == ExecuteSpec(t, cwd, input, latest, created, code2).tree
    ensures ExecuteSpec(t, cwd, input, latest, created, code1).result.Ok?
            <==> ExecuteSpec(t, cwd, input, latest, created, code2).result.Ok?
    ensures ExecuteSpec(t, cwd, input, latest, created, code1).result.Ok? ==>
              ExecuteSpec(t, cwd, input, latest, created, code1).result.value.exitCode == code1
  {
  }

  /** A completed run reports the shell command built from the resolved settings. */
  lemma SuccessReportsCommand(t: Tree, cwd: Path, input: Input, latest: Option<string>,
                              created: Tree, exitCode: int)
    ensures var r := ExecuteSpec(t, cwd, input, latest, created, exitCode).result;
            r.Ok? ==> Resolve(cwd, input, latest).Ok? &&
                      r.value == Run(Compose(Resolve(cwd, input, latest).value.wpdirectory,
                                             Resolve(cwd, input, latest).value.wpversion), exitCode)
  {
  }

  /**
   * A new named site whose checkout (`created`) holds the sub-module's
   * content directory, configuration sample and front controller is
   * installed: the run reports the command line and the exit code, and the
   * site's root holds the templated `wp-config.php` and `index.php`.
   */
  lemma NewSiteInstalled(t: Tree, cwd: Path, input: Input, latest: Option<string>,
                         created: Tree, exitCode: int, sample: string, entry: string)
    requires Truthy(input.name) && WpVersion(input.wpversion, latest).Ok?
    requires CanonicalPath(cwd) && CanonicalName(input.name.value) && CanonicalName(WpDirectory(input.wpdir))
    requires TargetDirectory(cwd, input.name) !in t
    requires forall a :: a in Chain(TargetDirectory(cwd, input.name)) && a in t ==> t[a].Dir?
    requires '/' !in WpDirectory(input.wpdir) && WpDirectory(input.wpdir) != "wp-content"
    requires var d, w := TargetDirectory(cwd, input.name), WpDirectory(input.wpdir);
             WpRoot(d, w) + "/wp-content" in created && created[WpRoot(d, w) + "/wp-content"].Dir? &&
             WpRoot(d, w) + "/wp-config-sample.php" in created &&
             created[WpRoot(d, w) + "/wp-config-sample.php"] == File(sample) &&
             WpRoot(d, w) + "/index.php" in created && created[WpRoot(d, w) + "/index.php"] == File(entry)
    requires var d := TargetDirectory(cwd, input.name);
             (d + "/wp-config.php" in t + created ==> (t + created)[d + "/wp-config.php"].File?) &&
             (d + "/index.php" in t + created ==> (t + created)[d + "/index.php"].File?)
    ensures var d, w := TargetDirectory(cwd, input.name), WpDirectory(input.wpdir);
            var v := WpVersion(input.wpversion, latest).value;
            var r := ExecuteSpec(t, cwd, input, latest, created, exitCode);
            r.result == Ok(Run(Compose(w, v), exitCode)) &&
            d + "/wp-config.php" in r.tree && r.tree[d + "/wp-config.php"] == File(Rewrite(w, sample)) &&
            d + "/index.php" in r.tree && r.tree[d + "/index.php"] == File(Rewrite(w, entry))
  {
    var d, w := TargetDirectory(cwd, input.name), WpDirectory(input.wpdir);
    NamedTargetIsBelowCwd(cwd, input.name);
    MkdirCreates(t, d);
    var u := MkdirSpec(t, d).tree + created;
    assert forall q :: q in created ==> q in u && u[q] == created[q];
    NewSiteEntries(t, MkdirSpec(t, d).tree, created, d);
    InstallLayout(u, d, w, sample, entry);
  }

  /** The entries the template step cares about are read through the `mkdir` result. */
  lemma NewSiteEntries(t: Tree, mk: Tree, created: Tree, d: Path)
    requires forall q :: q in mk && q !in t ==> q in Chain(d) && mk[q].Dir?
    requires forall q :: q in t ==> q in mk && mk[q] == t[q]
    requires d + "/wp-config.php" in t + created ==> (t + created)[d + "/wp-config.php"].File?
    requires d + "/index.php" in t + created ==> (t + created)[d + "/index.php"].File?
    ensures d + "/wp-config.php" in mk + created ==> (mk + created)[d + "/wp-config.php"].File?
    ensures d + "/index.php" in mk + created ==> (mk + created)[d + "/index.php"].File?
  {
    ChainStopsAtTarget(d, "/wp-config.php");
    ChainStopsAtTarget(d, "/index.php");
  }

  /** No directory `mkdir` creates for `d` lies strictly below `d`. */
  lemma ChainStopsAtTarget(d: Path, rel: string)
    requires rel != []
    ensures d + rel !in Chain(d)
  {
    forall i | 0 < i < |d| && d[i] == '/' ensures d[..i] != d + rel {
      assert |d[..i]| < |d + rel|;
    }
  }
}
