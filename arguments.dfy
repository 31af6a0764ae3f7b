/**
 * Argument resolution and the preflight check of the `new` command: the
 * target directory, the WordPress sub-directory and the version are
 * defaulted from the console input, and the run is refused when the target
 * already exists and is not the working directory.
 */
module Arguments {
  import opened Types
  import opened StrReplace

  /** The console input: the optional `name` argument and the `--wpdir` and `--wpversion` options. */
  datatype Input = Input(name: Option<string>, wpdir: Option<string>, wpversion: Option<string>)

  /** The three values the rest of the run works with. */
  datatype Settings = Settings(directory: string, wpdirectory: string, wpversion: string)

  const DefaultWpDirectory := "wordpress"

  /**
   * PHP truthiness of an argument value: an absent value, the empty string
   * and the string "0" all count as false.
   */
  predicate Truthy(v: Option<string>)
  {
    v.Some? && v.value != "" && v.value != "0"
  }

  /**
   * A relative path in the one spelling the operating system gives it: not
   * empty, no leading or trailing `/`, and no empty, `.` or `..` component.
   * Paths are map keys in the model, so `is_dir` and the model agree only on
   * names of this form.
   */
  predicate CanonicalName(n: string)
  {
    var s := "/" + n + "/";
    n != "" && !Occurs(s, "//") && !Occurs(s, "/./") && !Occurs(s, "/../")
  }

  /** An absolute path other than `/` in canonical form, as `getcwd()` returns it. */
  predicate CanonicalPath(p: string)
  {
    |p| > 1 && p[0] == '/' && CanonicalName(p[1..])
  }

  /** The target directory: the name under the working directory, or the working directory itself. */
  function TargetDirectory(cwd: string, name: Option<string>): string
  {
    if Truthy(name) then cwd + "/" + name.value else cwd
  }

  /** The sub-directory that receives the WordPress sub-module. */
  function WpDirectory(wpdir: Option<string>): string
  {
    if Truthy(wpdir) then wpdir.value else DefaultWpDirectory
  }

  /**
   * The version to check out: the option verbatim when it is truthy, else
   * the name of the newest tag the remote lookup returned (`latest`, `None`
   * when the lookup throws).
   */
  function WpVersion(wpversion: Option<string>, latest: Option<string>): Result<string>
  {
    if Truthy(wpversion) then Ok(wpversion.value)
    else if latest.Some? then Ok(latest.value)
    else Err(VersionLookupFailed)
  }

  /** Lines 43-45 of `execute`, in order. */
  function Resolve(cwd: string, input: Input, latest: Option<string>): Result<Settings>
  {
    match WpVersion(input.wpversion, latest)
    case Err(e) => Err(e)
    case Ok(v) => Ok(Settings(TargetDirectory(cwd, input.name), WpDirectory(input.wpdir), v))
  }

  /**
   * `verifyApplicationDoesntExist`: `present` says whether the target is a
   * file or a directory. PHP's loose `!=` agrees with string equality here,
   * since an absolute path is never a numeric string.
   */
  function Preflight(directory: string, cwd: string, present: bool): Outcome
  {
    if present && directory != cwd then Fail(SiteExists(directory)) else Pass
  }

  /** A truthy name puts the target strictly below the working directory. */
  lemma NamedTargetIsBelowCwd(cwd: string, name: Option<string>)
    requires Truthy(name)
    ensures TargetDirectory(cwd, name) != cwd
    ensures TargetDirectory(cwd, name)[..|cwd| + 1] == cwd + "/"
    ensures TargetDirectory(cwd, name)[|cwd| + 1..] == name.value
  {
    var d := TargetDirectory(cwd, name);
    assert d == (cwd + "/") + name.value;
    assert |d| > |cwd|;
  }

  /** Without a truthy name the target is the working directory itself. */
  lemma UnnamedTargetIsCwd(cwd: string, name: Option<string>)
    requires !Truthy(name)
    ensures TargetDirectory(cwd, name) == cwd
  {
  }

  /** `--wpdir` is used when truthy and `wordpress` otherwise; the result is never empty. */
  lemma WpDirectoryDefault(wpdir: Option<string>)
    ensures Truthy(wpdir) ==> WpDirectory(wpdir) == wpdir.value
    ensures !Truthy(wpdir) ==> WpDirectory(wpdir) == "wordpress"
    ensures WpDirectory(wpdir) != "" && WpDirectory(wpdir) != "0"
  {
  }

  /**
   * An explicit version is used verbatim and the outcome of the remote lookup
   * does not matter: the run resolves to the same settings whatever it says.
   */
  lemma ExplicitVersionIgnoresLookup(cwd: string, input: Input, latest1: Option<string>, latest2: Option<string>)
    requires Truthy(input.wpversion)
    ensures Resolve(cwd, input, latest1) == Resolve(cwd, input, latest2)
    ensures Resolve(cwd, input, latest1).Ok?
    ensures Resolve(cwd, input, latest1).value.wpversion == input.wpversion.value
  {
  }

  /** Without an explicit version, a failed lookup aborts resolution, and a successful one supplies the version. */
  lemma LookupDecidesDefaultVersion(cwd: string, input: Input, latest: Option<string>)
    requires !Truthy(input.wpversion)
    ensures latest.None? ==> Resolve(cwd, input, latest) == Err(VersionLookupFailed)
    ensures latest.Some? ==> Resolve(cwd, input, latest).Ok? &&
                             Resolve(cwd, input, latest).value.wpversion == latest.value
  {
  }

  /** Preflight fails exactly when the target exists and is not the working directory. */
  lemma PreflightFailsIff(directory: string, cwd: string, present: bool)
    ensures Preflight(directory, cwd, present).Fail? <==> present && directory != cwd
    ensures Preflight(directory, cwd, present).Fail? ==> Preflight(directory, cwd, present).error == SiteExists(directory)
  {
  }

  /**
   * Running without a name always passes preflight; running with a name
   * fails exactly when the named target already exists.
   */
  lemma PreflightForResolvedTarget(cwd: string, name: Option<string>, present: bool)
    ensures !Truthy(name) ==> Preflight(TargetDirectory(cwd, name), cwd, present) == Pass
    ensures Truthy(name) ==> (Preflight(TargetDirectory(cwd, name), cwd, present).Fail? <==> present)
  {
    PreflightFailsIff(TargetDirectory(cwd, name), cwd, present);
    if Truthy(name) {
      NamedTargetIsBelowCwd(cwd, name);
    } else {
      UnnamedTargetIsCwd(cwd, name);
    }
  }
}
