/**
 * The `new` command itself: `execute` and the three steps it runs after
 * the shell command, `moveWordPressContent`, `cleanUpWordPressContent` and
 * `enterCustomConfiguration`. Each step is a method on the file system,
 * proved against a function of the tree it starts from.
 */
module Installer {
  import opened Types
  import opened FileTree
  import opened Templating
  import opened Arguments
  import opened Commands

  /** Where the sub-module is checked out: `getcwd() . '/' . $wpdirectory`, the working directory being the target by then. */
  function WpRoot(directory: Path, wpdirectory: string): Path
  {
    directory + "/" + wpdirectory
  }

  /** `moveWordPressContent`: mirror `wp-content` up, then copy the config sample and `index.php` up. */
  function MoveSpec(t: Tree, directory: Path, wpdirectory: string): Effect
  {
    var wp := WpRoot(directory, wpdirectory);
    var m := MirrorSpec(t, wp + "/wp-content", directory + "/wp-content");
    if m.outcome.Fail? then m
    else
      var c := CopySpec(m.tree, wp + "/wp-config-sample.php", directory + "/wp-config.php");
      if c.outcome.Fail? then c
      else CopySpec(c.tree, wp + "/index.php", directory + "/index.php")
  }

  /** The bundled themes removed from the new site, by folder name. */
  const DefaultThemes := ["twentyten", "twentyeleven", "twentytwelve", "twentythirteen",
                          "twentyfourteen", "twentyfifteen", "twentysixteen", "twentyseventeen"]

  /** The folder of a bundled theme below the target's content directory. */
  function ThemeRoot(directory: Path, theme: string): Path
  {
    directory + "/wp-content/themes/" + theme
  }

  /** The twelve paths `cleanUpWordPressContent` removes, in order. */
  function CleanupRoots(directory: Path, wpdirectory: string): seq<Path>
  {
    var wp := WpRoot(directory, wpdirectory);
    [ wp + "/wp-config-sample.php",
      wp + "/index.php",
      wp + "/wp-content",
      directory + "/wp-content/plugins/hello.php" ]
    + seq(|DefaultThemes|, i requires 0 <= i < |DefaultThemes| => ThemeRoot(directory, DefaultThemes[i]))
  }

  /**
   * A file name the Finder's `name('*.php')` accepts: no `/`, ends in
   * `.php`, and does not start with a dot (the glob's leading-dot rule and
   * the Finder's default of skipping dot files).
   */
  predicate PhpFileName(n: string)
  {
    |n| > 4 && n[0] != '.' && '/' !in n && n[|n| - 4..] == ".php"
  }

  /** `p` is a depth-0 entry of `directory` with a PHP file name. */
  predicate DepthZeroPhp(directory: Path, p: Path)
  {
    |p| > |directory| + 1 && p[..|directory| + 1] == directory + "/"
    && PhpFileName(p[|directory| + 1..])
  }

  /** What `$finder->files()->in($directory)->name('*.php')->depth('== 0')` yields. */
  predicate Templated(t: Tree, directory: Path, p: Path)
  {
    p in t && t[p].File? && DepthZeroPhp(directory, p)
  }

  /** `enterCustomConfiguration`: every file the Finder yields is rewritten, nothing else changes. */
  function TemplateTree(t: Tree, directory: Path, wpdirectory: string): Tree
  {
    map p | p in t :: if Templated(t, directory, p) then File(Rewrite(wpdirectory, t[p].contents)) else t[p]
  }

  /** `cleanUpWordPressContent`: the twelve removals, then the templating. */
  function CleanupSpec(t: Tree, directory: Path, wpdirectory: string): Tree
  {
    TemplateTree(Prune(t, CleanupRoots(directory, wpdirectory)), directory, wpdirectory)
  }

  /** The part of `execute` after the shell command: relocation, then pruning and templating. */
  function FinishSpec(t: Tree, directory: Path, wpdirectory: string): Effect
  {
    var m := MoveSpec(t, directory, wpdirectory);
    if m.outcome.Fail? then m else Effect(Pass, CleanupSpec(m.tree, directory, wpdirectory))
  }

  /** What a completed run reports: the command line it ran and that command's exit code. */
  datatype Run = Run(command: string, exitCode: int)

  /** The result of `execute` and the tree it leaves behind. */
  datatype RunEffect = RunEffect(result: Result<Run>, tree: Tree)

  /**
   * `execute`. The remote version lookup's answer (`latest`), the files the
   * shell command creates (`created`) and its exit code are parameters.
   */
  function ExecuteSpec(t: Tree, cwd: Path, input: Input, latest: Option<string>,
                       created: Tree, exitCode: int): RunEffect
  {
    match Resolve(cwd, input, latest)
    case Err(e) => RunEffect(Err(e), t)
    case Ok(s) =>
      var d, w := s.directory, s.wpdirectory;
      if Preflight(d, cwd, d in t).Fail? then RunEffect(Err(SiteExists(d)), t)
      else
        var mk := if d != cwd then MkdirSpec(t, d) else Effect(Pass, t);
        if mk.outcome.Fail? then RunEffect(Err(mk.outcome.error), mk.tree)
        else
          var f := FinishSpec(mk.tree + created, d, w);
          if f.outcome.Fail? then RunEffect(Err(f.outcome.error), f.tree)
          else RunEffect(Ok(Run(Compose(w, s.wpversion), exitCode)), f.tree)
  }

  // ---------------------------------------------------------------------
  // The command's methods

  /** `verifyApplicationDoesntExist`. */
  method VerifyApplicationDoesntExist(fs: FileSystem, directory: Path, cwd: Path) returns (o: Outcome)
    ensures o.Fail? <==> fs.Exists(directory) && directory != cwd
    ensures o.Fail? ==> o.error == SiteExists(directory)
  {
    o := Preflight(directory, cwd, fs.Exists(directory));
  }

  /** `moveWordPressContent`: stops at the first call that throws. */
  method MoveWordPressContent(fs: FileSystem, directory: Path, wpdirectory: string) returns (o: Outcome)
    modifies fs
    ensures Effect(o, fs.nodes) == MoveSpec(old(fs.nodes), directory, wpdirectory)
  {
    var wp := WpRoot(directory, wpdirectory);
    o := fs.Mirror(wp + "/wp-content", directory + "/wp-content");
    if o.Fail? { return; }
    o := fs.Copy(wp + "/wp-config-sample.php", directory + "/wp-config.php");
    if o.Fail? { return; }
    o := fs.Copy(wp + "/index.php", directory + "/index.php");
  }

  /** `enterCustomConfiguration`: the `foreach` over the Finder's files, each rewritten in place. */
  method EnterCustomConfiguration(fs: FileSystem, directory: Path, wpdirectory: string)
    modifies fs
    ensures fs.nodes == TemplateTree(old(fs.nodes), directory, wpdirectory)
  {
    ghost var t0 := fs.nodes;
    var todo := set p | p in fs.nodes && Templated(fs.nodes, directory, p);
    while todo != {}
      invariant fs.nodes.Keys == t0.Keys
      invariant forall p :: p in todo ==> Templated(t0, directory, p)
      invariant forall p :: p in todo ==> fs.nodes[p] == t0[p]
      invariant forall p :: p in t0 ==>
                  fs.nodes[p] == if Templated(t0, directory, p) && p !in todo
                                 then File(Rewrite(wpdirectory, t0[p].contents)) else t0[p]
      decreases |todo|
    {
      var p :| p in todo;
      var contents := fs.Read(p);
      fs.DumpFile(p, Rewrite(wpdirectory, contents));
      todo := todo - {p};
    }
  }

  /** `cleanUpWordPressContent`: twelve removals in the source's order, then the templating. */
  method CleanUpWordPressContent(fs: FileSystem, directory: Path, wpdirectory: string)
    modifies fs
    ensures fs.nodes == CleanupSpec(old(fs.nodes), directory, wpdirectory)
  {
    ghost var t0 := fs.nodes;
    ghost var done: seq<Path> := [];
    var wp := WpRoot(directory, wpdirectory);
    fs.Remove(wp + "/wp-config-sample.php");
    done := [wp + "/wp-config-sample.php"];
    assert fs.nodes == Prune(t0, done);
    fs.Remove(wp + "/index.php");
    PruneTwice(t0, done, [wp + "/index.php"]); done := done + [wp + "/index.php"];
    fs.Remove(wp + "/wp-content");
    PruneTwice(t0, done, [wp + "/wp-content"]); done := done + [wp + "/wp-content"];
    fs.Remove(directory + "/wp-content/plugins/hello.php");
    PruneTwice(t0, done, [directory + "/wp-content/plugins/hello.php"]);
    done := done + [directory + "/wp-content/plugins/hello.php"];
    fs.Remove(ThemeRoot(directory, "twentyten"));
    PruneTwice(t0, done, [ThemeRoot(directory, "twentyten")]);
    done := done + [ThemeRoot(directory, "twentyten")];
    fs.Remove(ThemeRoot(directory, "twentyeleven"));
    PruneTwice(t0, done, [ThemeRoot(directory, "twentyeleven")]);
    done := done + [ThemeRoot(directory, "twentyeleven")];
    fs.Remove(ThemeRoot(directory, "twentytwelve"));
    PruneTwice(t0, done, [ThemeRoot(directory, "twentytwelve")]);
    done := done + [ThemeRoot(directory, "twentytwelve")];
    fs.Remove(ThemeRoot(directory, "twentythirteen"));
    PruneTwice(t0, done, [ThemeRoot(directory, "twentythirteen")]);
    done := done + [ThemeRoot(directory, "twentythirteen")];
    fs.Remove(ThemeRoot(directory, "twentyfourteen"));
    PruneTwice(t0, done, [ThemeRoot(directory, "twentyfourteen")]);
    done := done + [ThemeRoot(directory, "twentyfourteen")];
    fs.Remove(ThemeRoot(directory, "twentyfifteen"));
    PruneTwice(t0, done, [ThemeRoot(directory, "twentyfifteen")]);
    done := done + [ThemeRoot(directory, "twentyfifteen")];
    fs.Remove(ThemeRoot(directory, "twentysixteen"));
    PruneTwice(t0, done, [ThemeRoot(directory, "twentysixteen")]);
    done := done + [ThemeRoot(directory, "twentysixteen")];
    fs.Remove(ThemeRoot(directory, "twentyseventeen"));
    PruneTwice(t0, done, [ThemeRoot(directory, "twentyseventeen")]);
    done := done + [ThemeRoot(directory, "twentyseventeen")];
    assert done == CleanupRoots(directory, wpdirectory);
    EnterCustomConfiguration(fs, directory, wpdirectory);
  }

  /**
   * `execute`: resolve the arguments, refuse an existing target, create it,
   * compose and run the shell command (its effect on the tree is `created`),
   * then relocate, prune and template. The exit code is returned whatever
   * it is; it does not decide whether the later steps run.
   */
  method Execute(fs: FileSystem, cwd: Path, input: Input, latest: Option<string>,
                 created: Tree, exitCode: int) returns (r: Result<Run>)
    modifies fs
    ensures RunEffect(r, fs.nodes) == ExecuteSpec(old(fs.nodes), cwd, input, latest, created, exitCode)
  {
    var settings := Resolve(cwd, input, latest);
    if settings.Err? {
      return Err(settings.error);
    }
    var directory, wpdirectory := settings.value.directory, settings.value.wpdirectory;
    var pre := VerifyApplicationDoesntExist(fs, directory, cwd);
    if pre.Fail? {
      return Err(pre.error);
    }
    if directory != cwd {
      var mk := fs.Mkdir(directory);
      if mk.Fail? {
        return Err(mk.error);
      }
    }
    var command := Compose(wpdirectory, settings.value.wpversion);
    fs.Absorb(created);
    var moved := MoveWordPressContent(fs, directory, wpdirectory);
    if moved.Fail? {
      return Err(moved.error);
    }
    CleanUpWordPressContent(fs, directory, wpdirectory);
    r := Ok(Run(command, exitCode));
  }
}
