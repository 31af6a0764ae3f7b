# wordpress-git-installer, modelled in Dafny

`wordpress new [name] [--wpdir=...] [--wpversion=...]` sets up a WordPress
site with WordPress core as a git sub-module. It does six things in order:

1. It resolves the target directory, the sub-module directory and the
   version to check out.
2. It refuses a target that already exists and is not the working
   directory.
3. It creates the target.
4. It runs one shell command line: `git init`, `git submodule add`, `cd`,
   fetch tags, `git checkout` and `echo`.
5. It moves the sub-module's `wp-content`, `wp-config-sample.php` and
   `index.php` up into the site and deletes the sample plugin and the eight
   bundled themes.
6. It rewrites every top-level PHP file: the MySQL marker comment becomes a
   block of `define(...)` constants, and the include of
   `/wp-blog-header.php` is redirected into the sub-module.

The project models all of this in Dafny, module by module.

- `Types`: the shared `Option`, `Result` and `Outcome` types and the errors a run can end with.
- `StrReplace`: PHP's `str_replace` for a single search string, plus lemmas on where matches fall and what gets replaced.
- `Templating`: the constants block and the two nested replacements `enterCustomConfiguration` applies to each file's text.
- `Arguments`: PHP truthiness, defaulting of the `name`, `--wpdir` and `--wpversion` inputs, and the `verifyApplicationDoesntExist` test.
- `Commands`: the six shell steps and their `implode` with `" && "`. It also defines `Explode`, which splits a string at `" && "`; splitting the command line this way gives back the six steps. This is a string-level inverse, not a model of shell parsing.
- `FileTree`: an abstract file tree (a map from paths to files and directories). The `Filesystem` calls (`mkdir`, `mirror`, `copy`, `remove`, `dumpFile`) are specified here as functions on the tree. A `FileSystem` class holds the tree, with one method per call.
- `Installer`: the spec functions for the command, and imperative methods proved against them. The methods are `execute`, `verifyApplicationDoesntExist`, `moveWordPressContent`, `cleanUpWordPressContent` (twelve removals in the source's order) and `enterCustomConfiguration` (a loop over the files the `Finder` yields, rewriting each in place).
- `Layout`: what the relocation and cleanup leave on disk. The removed roots are gone, every other entry survives, the entry files land at the root and get templated, and the copied content is kept.
- `Execution`: properties of a whole run. These cover refusal, lookup failure, mkdir onto a file, independence from the exit code, the reported command, and the layout of a freshly installed site.

The working directory, the remote tag lookup's answer, the files the shell
command creates and its exit code are all parameters.

Relocation and cleanup run whatever the shell's exit code
(src/NewCommand.php:70-79): the exit code is only returned at the end. How
a failed download shows up depends on which step failed. A failed clone
leaves no `<wpdir>/wp-content`, so `mirror` fails with NotFound
(`Layout.MoveFailsWithoutCheckout`). When `git submodule add` succeeds but
the tag fetch or the version checkout fails, the default branch's tree is
still there. Relocation and cleanup then install it, and only the returned
exit code reports the failure (`Execution.ExitCodeOnlyReported`).

## Model

| member | source | states |
|---|---|---|
| StrReplace.Replace | src/NewCommand.php:173-181 | defines `str_replace` with one search string: a left-to-right scan that replaces each non-overlapping occurrence, with an empty search string leaving the subject as it is; the lemmas below state its behaviour |
| StrReplace.ReplaceSkipsPrefix | src/NewCommand.php:173-181 | with no occurrence before index k, replacing leaves the first k characters as they are and replaces in the rest |
| StrReplace.ReplaceNoMatch | src/NewCommand.php:173-181 | a subject without an occurrence of the search string comes back unchanged |
| StrReplace.ReplaceFirst | src/NewCommand.php:173-181 | the first occurrence is replaced, the text before it is kept, and scanning resumes right after it (non-overlapping, left to right) |
| StrReplace.ReplacementEndsWithNeedle | src/NewCommand.php:176-179 | when the replacement ends with the search string, the string is found again at the end of the inserted text |
| StrReplace.MatchAcrossWidening | src/NewCommand.php:173-181 | when a piece of text that ends with `m`, starts with a character the search string has only at its front, and holds no occurrence of the search string replaces `m`, a match in the result either lies wholly before the piece, found at the same place in the text before the replacement, or starts no earlier than the piece's trailing `m` (it may start inside that `m`), found shifted back by the growth in the text before the replacement |
| Templating.Block | src/NewCommand.php:162-167 | defines the constants block `$contants` for a given sub-directory |
| Templating.RedirectedHeader | src/NewCommand.php:174-175 | defines the replacement of the include path: `/`, the sub-directory, then `/wp-blog-header.php` |
| Templating.ExpandMarker | src/NewCommand.php:176-180 | defines the inner `str_replace` of the marker comment by the constants block |
| Templating.Rewrite | src/NewCommand.php:173-181 | defines the rewrite of one file's text: the marker is expanded first, then `/wp-blog-header.php` is redirected into the sub-directory |
| Templating.BlockLines | src/NewCommand.php:162-167 | the constants block is the comment line, the WP_SITEURL define, the WP_HOME, WP_CONTENT_DIR and WP_CONTENT_URL defines, an empty line and the marker, in that order |
| Templating.SiteUrlEndsWithDirectory | src/NewCommand.php:163 | the WP_SITEURL define ends with `'/' . $wpdirectory` followed by `');` |
| Templating.BlockDependsOnlyOnSiteUrl | src/NewCommand.php:162-167 | two blocks for different sub-directories agree everywhere except the sub-directory name inside the WP_SITEURL line |
| Templating.BlockEndsWithMarker | src/NewCommand.php:166-167 | the block ends with the marker line, so the marker survives the substitution |
| Templating.BlockHasNoHeader | src/NewCommand.php:162-167 | the constants block holds no `/wp-blog-header.php` for any sub-directory name without the letter `b`, the default `wordpress` among them |
| Templating.RewriteNoMatch | src/NewCommand.php:173-181 | a file with neither the marker nor `/wp-blog-header.php` is written back byte for byte |
| Templating.ExpandFirstMarker | src/NewCommand.php:176-179 | the first marker becomes the block, the text before it is kept, and the marker is found again at the block's end |
| Templating.RedirectFirstHeader | src/NewCommand.php:173-175 | in the marker-substituted text, the first `/wp-blog-header.php` becomes `/<wpdir>/wp-blog-header.php` and the scan continues after it |
| Templating.RewriteConfigTemplate | src/NewCommand.php:173-181 | a text with exactly one marker and no include path, for a sub-directory whose block has no include path, gets the block in place of the marker and nothing else |
| Templating.RewriteDefaultConfigTemplate | src/NewCommand.php:173-181 | for the default `wordpress`, a sample with one marker and no include path gets the block in place of the marker and nothing else, with no condition on the block |
| Templating.ExpandSoleMarker | src/NewCommand.php:176-180 | a text with exactly one marker gets the block in its place and keeps the rest |
| Templating.HeaderMatchesAfterExpansion | src/NewCommand.php:173-181 | when the block has no include path (for instance a sub-directory without `b`, Templating.BlockHasNoHeader), every include path found after the marker is expanded was already in the text before, at the same place or shifted by the block's growth |
| Templating.RedirectSoleHeader | src/NewCommand.php:173-175 | a text with exactly one include path gets the redirected path in its place and keeps the rest |
| Templating.RewriteConfiguredScript | src/NewCommand.php:173-181 | when the block has no include path (for instance a sub-directory without `b`, Templating.BlockHasNoHeader), a text with one marker followed later by one include path gets both rewritten, the block in place of the marker and the redirected path in place of the include, and keeps everything else |
| Templating.MarkerSurvivesRedirect | src/NewCommand.php:173-181 | when the block has no include path, for a text with one marker followed later by one include path, the marker is still found at the end of the inserted block after both replacements |
| Templating.RewriteEntryScript | src/NewCommand.php:173-181 | a text with one include path and no marker gets the path redirected and nothing else |
| Arguments.Truthy | src/NewCommand.php:43-45 | defines PHP truthiness of an argument: absent, empty and "0" are false |
| Arguments.TargetDirectory | src/NewCommand.php:43 | defines the target: `cwd + "/" + name` for a truthy name, else cwd |
| Arguments.WpDirectory | src/NewCommand.php:44 | defines the sub-directory: `--wpdir` when truthy, else `wordpress` |
| Arguments.WpVersion | src/NewCommand.php:45 | defines the version: `--wpversion` when truthy, else the lookup's answer, with a failed lookup an error |
| Arguments.Resolve | src/NewCommand.php:43-45 | defines the three resolved settings, failing only when the version lookup fails |
| Arguments.Preflight | src/NewCommand.php:93-98 | defines the refusal of an existing target that is not cwd |
| Arguments.NamedTargetIsBelowCwd | src/NewCommand.php:43 | a truthy name gives `cwd + "/" + name`, which differs from cwd |
| Arguments.WpDirectoryDefault | src/NewCommand.php:44 | `--wpdir` is used when truthy, else `wordpress` (absent, empty and "0" all default) |
| Arguments.ExplicitVersionIgnoresLookup | src/NewCommand.php:45 | a truthy `--wpversion` is used verbatim and the lookup's answer does not matter |
| Arguments.PreflightForResolvedTarget | src/NewCommand.php:93-98 | an unnamed target (cwd) always passes; a named one fails exactly when it exists |
| Commands.Steps | src/NewCommand.php:54-61 | defines the six shell steps with the sub-directory and version spliced in |
| Commands.Implode | src/NewCommand.php:65 | defines PHP `implode`: the parts joined with the glue between neighbours |
| Commands.Compose | src/NewCommand.php:54-65 | defines the command line: the six steps imploded with `" && "` |
| Commands.ComposeSplitsIntoSteps | src/NewCommand.php:54-65 | when neither the sub-directory nor the version contains `&`, splitting the command line at `" && "` gives back exactly the six steps in order |
| Commands.ComposeOrder | src/NewCommand.php:54-65 | cutting the command after any step leaves the earlier steps joined on the left and the later ones on the right |
| Commands.ExplodeImplode | src/NewCommand.php:65 | for a non-empty list of parts free of `&`, explode undoes implode with `" && "` |
| Commands.ImplodeAppend | src/NewCommand.php:65 | imploding two non-empty lists together puts one separator between their implosions |
| FileTree.MkdirSpec | src/NewCommand.php:50 | defines Symfony `mkdir`: every missing directory on the way is created, and a file on the way fails the call |
| FileTree.Prune | src/NewCommand.php:129-141 | defines Symfony `remove` of a list of roots: every path under any root is dropped |
| FileTree.MirrorTree | src/NewCommand.php:111 | defines the tree `mirror` leaves: each node under the source laid at the same relative place under the target |
| FileTree.MirrorSpec | src/NewCommand.php:111 | defines Symfony `mirror`: NotFound without the source, WrongKind when it is a file, else MirrorTree |
| FileTree.CopySpec | src/NewCommand.php:112-113 | defines Symfony `copy`: the source must be a file and the target must not be a directory |
| FileTree.MkdirCreates | src/NewCommand.php:50 | when no path on the way is a file, mkdir succeeds, makes the target a directory, keeps every entry and adds only directories on the way |
| FileTree.PruneTwice | src/NewCommand.php:129-141 | removing one list of roots and then another is removing both lists |
| FileTree.MirrorCopies | src/NewCommand.php:111 | mirror copies every node under the source to the same relative place under the target |
| FileTree.MirrorKeepsUncopied | src/NewCommand.php:111 | a target path with no counterpart under the source is kept as it was |
| FileTree.MirrorAddsOnlyCopies | src/NewCommand.php:111 | every path mirror adds lies under the target and has a counterpart under the source |
| FileTree.MirrorFrame | src/NewCommand.php:111 | mirror neither adds nor changes anything outside the target |
| FileTree.FileSystem.constructor | src/NewCommand.php:42 | the file system starts as the given tree |
| FileTree.FileSystem.Exists | src/NewCommand.php:95 | defines the test `is_dir` or `is_file` on a path: the path is a node of the tree |
| FileTree.FileSystem.Read | src/NewCommand.php:172 | reading a file returns its contents |
| FileTree.FileSystem.Mkdir | src/NewCommand.php:50 | the call has the effect MkdirSpec gives |
| FileTree.FileSystem.Mirror | src/NewCommand.php:111 | the call has the effect MirrorSpec gives: it fails unless the source is a directory |
| FileTree.FileSystem.Copy | src/NewCommand.php:112-113 | the call has the effect CopySpec gives: it fails unless the source is a file or when the target is a directory |
| FileTree.FileSystem.Remove | src/NewCommand.php:129-141 | the path and everything under it are deleted, and nothing else |
| FileTree.FileSystem.DumpFile | src/NewCommand.php:182 | the file is overwritten with the new contents and nothing else changes |
| FileTree.FileSystem.Absorb | src/NewCommand.php:70-72 | the shell command's files are laid over the tree |
| Installer.WpRoot | src/NewCommand.php:111 | defines the sub-module's path: the target, `/`, the sub-directory |
| Installer.MoveSpec | src/NewCommand.php:109-116 | defines `moveWordPressContent`: mirror, then the two copies, stopping at the first failure |
| Installer.CleanupRoots | src/NewCommand.php:129-141 | defines the twelve paths `cleanUpWordPressContent` removes, in the source's order |
| Installer.ThemeRoot | src/NewCommand.php:134-141 | defines the folder of a bundled theme: `<dir>/wp-content/themes/<theme>` |
| Installer.PhpFileName | src/NewCommand.php:169 | defines the Finder's name test: ends with `.php`, does not start with a dot |
| Installer.DepthZeroPhp | src/NewCommand.php:169 | defines the Finder's selection: a file name directly under the target that passes the name test |
| Installer.Templated | src/NewCommand.php:169 | defines which paths the loop rewrites: depth-0 PHP regular files |
| Installer.TemplateTree | src/NewCommand.php:158-184 | defines the tree after `enterCustomConfiguration`: each templated file rewritten by Rewrite, everything else as it was |
| Installer.CleanupSpec | src/NewCommand.php:127-148 | defines `cleanUpWordPressContent`: prune the twelve roots, then template |
| Installer.FinishSpec | src/NewCommand.php:77-79 | defines relocation followed by cleanup, with cleanup skipped when relocation fails |
| Installer.ExecuteSpec | src/NewCommand.php:40-85 | defines a whole run: resolve, refuse, mkdir, absorb the shell's files, finish, and report command and exit code |
| Installer.VerifyApplicationDoesntExist | src/NewCommand.php:93-98 | fails if and only if the target exists and is not cwd, with SiteExists |
| Installer.MoveWordPressContent | src/NewCommand.php:109-116 | mirror, copy, copy in that order, stopping at the first failure |
| Installer.EnterCustomConfiguration | src/NewCommand.php:158-184 | every depth-0 PHP file of the target is rewritten, and nothing else changes |
| Installer.CleanUpWordPressContent | src/NewCommand.php:127-148 | the twelve roots are pruned, then the templating runs |
| Installer.Execute | src/NewCommand.php:40-85 | resolve, refuse an existing target, mkdir when not cwd, run the shell, relocate, clean up, and report the command and exit code |
| Layout.SurvivesByGroups | src/NewCommand.php:129-141 | a path spared by both groups of roots survives all twelve removals |
| Layout.TopLevelSurvives | src/NewCommand.php:129-141 | no depth-0 entry of the target, the sub-module folder included, is removed |
| Layout.CoreSurvives | src/NewCommand.php:129-131 | inside the sub-module only the three relocated entries are removed |
| Layout.ContentEntrySurvives | src/NewCommand.php:133-141 | in the site's wp-content everything outside plugins and themes survives |
| Layout.OtherPluginSurvives | src/NewCommand.php:133 | every plugin but hello.php survives |
| Layout.OtherThemeSurvives | src/NewCommand.php:134-141 | every theme but the eight bundled ones survives |
| Layout.MovePathsApart | src/NewCommand.php:111-113 | the copy sources and targets lie outside the mirrored directory and apart from each other |
| Layout.MoveLayout | src/NewCommand.php:109-116 | with the checkout present, relocation succeeds, the two entry files land at the root, the content is copied up, what the target's wp-content held and the mirror does not overwrite is kept, nothing outside wp-content changes, and the only new paths are the entry files and copies |
| Layout.MoveFailsWithoutCheckout | src/NewCommand.php:111 | without the checked-out wp-content, relocation fails with NotFound at once and changes nothing |
| Layout.DepthZeroPhpOf | src/NewCommand.php:169 | a depth-0 entry is templated exactly when its name is a PHP file name |
| Layout.ContentNotTemplated | src/NewCommand.php:169 | nothing under wp-content is a depth-0 PHP file |
| Layout.CleanupRemovesRoots | src/NewCommand.php:129-141 | every path under one of the twelve roots is gone after the cleanup |
| Layout.CleanupKeepsRest | src/NewCommand.php:127-148 | every other path is kept, rewritten when it is a depth-0 PHP file and unchanged otherwise |
| Layout.CleanupAddsNothing | src/NewCommand.php:127-148 | the cleanup adds no path |
| Layout.TopLevelPhpTemplated | src/NewCommand.php:169-182 | a PHP file at the site's root survives the removals and is rewritten |
| Layout.EntryFilesTemplated | src/NewCommand.php:169-182 | the relocated wp-config.php and index.php are rewritten |
| Layout.ContentKept | src/NewCommand.php:129-141 | copied content outside the roots is kept as copied |
| Layout.PreexistingContentKept | src/NewCommand.php:129-141 | content the site's wp-content held before relocation and the mirror did not overwrite is kept by the cleanup unless it is under a removal root |
| Layout.OthersKept | src/NewCommand.php:127-148 | outside wp-content and the entry files, the cleanup keeps every path that is not removed, rewriting only depth-0 PHP files, and adds nothing |
| Layout.InstallLayout | src/NewCommand.php:109-184 | after relocation and cleanup: wp-config.php is the rewritten sample, index.php the rewritten front controller, the roots are gone, copied content and pre-existing uncopied content outside them are kept, the rest is unchanged except templating, and the only new paths are the entry files and copies |
| Execution.ExistingSiteRefused | src/NewCommand.php:47-50 | an existing target other than cwd ends the run with SiteExists before the tree is touched |
| Execution.WorkingDirectoryNeverRefused | src/NewCommand.php:95 | an unnamed run is never refused as an existing site |
| Execution.LookupFailureAborts | src/NewCommand.php:45 | without `--wpversion`, a failed tag lookup aborts the run with the tree untouched |
| Execution.MkdirOntoFileAborts | src/NewCommand.php:49-50 | a new named target whose way down runs through a file makes mkdir throw: the run ends with WrongKind and the tree untouched |
| Execution.ExplicitVersionSkipsLookup | src/NewCommand.php:45 | with `--wpversion`, the run does not depend on the lookup |
| Execution.ExitCodeOnlyReported | src/NewCommand.php:70-84 | the exit code is returned but does not change the tree or whether the run completes |
| Execution.SuccessReportsCommand | src/NewCommand.php:54-84 | a completed run reports the command built from the resolved settings and the shell's exit code |
| Execution.NewSiteInstalled | src/NewCommand.php:40-85 | a new named site with a complete checkout is installed, with the templated wp-config.php and index.php at its root |

## Left out

- getWordPressVersion (src/NewCommand.php:191-197) is an HTTP request with JSON decoding. Its answer is the `latest` parameter, with `None` for a lookup that throws. An empty tag list, where PHP yields an empty version, is not modelled.
- Process spawning, TTY detection and output streaming are external I/O. The files the shell command creates (`created`) and its exit code are parameters; which files git really creates is not modelled.
- Commands.ComposeSplitsIntoSteps: assumes the sub-directory and version contain no `&`, so that splitting at `" && "` gives back the six steps. It is a fact about the string, not about how a shell parses it; quoting and other metacharacters such as `;` in the options are not modelled.
- `chdir` and `getcwd` are process state. The working directory is a parameter, and `getcwd()` after `chdir($directory)` is taken to be `$directory` verbatim, with no symlink or `..` resolution.
- Filesystem `copy` skipping a target that is not older than its source (it copies only when the source's modification time is strictly later) depends on modification times, which are not modelled: copy always overwrites. `mirror` copies each file with the same rule, so the same holds for mirrored files. Creating the target's parent directory is not modelled either.
- Filesystem `mirror` is modelled as laying the source subtree over the target. A kind conflict under the target, such as a file at `<dir>/wp-content` where the source has a directory, is overwritten by the source's node. Symfony throws in both directions: its `mkdir` fails on a file where the source has a directory, and its `copy` fails to open a directory where the source has a file. The options for deleting extra files and copying on Windows are not used by the source and are not modelled. Symbolic links are not modelled.
- The Finder is modelled as the depth-0 regular files whose names match `*.php` and do not start with a dot. Symbolic links and `getRealPath` canonicalisation are not modelled.
- The Finder's results are modelled as a snapshot taken before the loop. The source iterates lazily while `dumpFile` writes into the same directory; it only overwrites files that are already listed, so the model takes the listing as fixed.
- File contents are modelled as sequences of characters, not bytes. The strings searched for are ASCII, so replacing characters matches replacing bytes.
- `PHP_EOL` is modelled as `"\n"`, its value on Unix-like systems. The `"\r\n"` of Windows is not modelled.
- Console output (`writeln`, `write`) and the `configure` option registration are UI only and are left out.
- The exceptions the source throws are modelled as an `Err` result that ends the run. The exception's message text is not modelled.
- Layout.MoveLayout, Layout.InstallLayout and the Layout survival lemmas assume a sub-directory name that is a single path component other than `wp-content`. This keeps the path proofs simple. They do not exclude `.` or `..`: for those names the model's keys such as `<dir>/./wp-content` are not the paths the file system uses, so the Layout lemmas say nothing about such a run (Execution.NewSiteInstalled requires a canonical name and so excludes them). A name of several components such as `lib/wp` does not make the paths overlap, but it is not covered; `wp-content` itself would make the sub-module's content directory and the site's overlap.
- Execution.NewSiteInstalled: states only the result and the two templated entry files. The rest of the layout is stated by Layout.InstallLayout on the tree the checkout leaves.
- Paths are map keys, so two spellings of one directory (`mysite/`, `./mysite`, `a//b`) are different keys to the model, while `is_dir` sees the same directory. The model takes the working directory, the name and the sub-directory as canonical (Arguments.CanonicalPath, Arguments.CanonicalName: no empty, `.` or `..` component, no trailing `/`, cwd not `/`).
- Execution.ExistingSiteRefused and Execution.NewSiteInstalled: require the working directory, the name and (for the latter) the sub-directory to be canonical, since only then does a map lookup agree with `is_dir`.
