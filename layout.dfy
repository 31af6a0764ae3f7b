/**
 * What a run leaves on disk: which paths the cleanup removes and which it
 * keeps, what relocation copies, which files the templating rewrites, and
 * the layout of a successful run of `execute`.
 */
module Layout {
  import opened Types
  import opened FileTree
  import opened Templating
  import opened Arguments
  import opened Commands
  import opened Installer

  /** The removal roots: three paths in the sub-module, the sample plugin, and one folder per bundled theme. */
  lemma RootsShape(d: Path, w: string)
    ensures |CleanupRoots(d, w)| == 4 + |DefaultThemes|
    ensures CleanupRoots(d, w)[0] == WpRoot(d, w) + "/wp-config-sample.php"
    ensures CleanupRoots(d, w)[1] == WpRoot(d, w) + "/index.php"
    ensures CleanupRoots(d, w)[2] == WpRoot(d, w) + "/wp-content"
    ensures CleanupRoots(d, w)[3] == d + "/wp-content/plugins/hello.php"
    ensures forall i :: 0 <= i < |DefaultThemes| ==> CleanupRoots(d, w)[4 + i] == ThemeRoot(d, DefaultThemes[i])
  {
  }

  /** `p` lies under none of the three removal roots inside the sub-module. */
  predicate SparedBySubmodule(p: Path, d: Path, w: string)
  {
    !Under(p, WpRoot(d, w) + "/wp-config-sample.php") && !Under(p, WpRoot(d, w) + "/index.php") &&
    !Under(p, WpRoot(d, w) + "/wp-content")
  }

  /** `p` lies under neither the sample plugin nor a bundled theme's folder. */
  predicate SparedByContent(p: Path, d: Path)
  {
    !Under(p, d + "/wp-content/plugins/hello.php") &&
    forall i :: 0 <= i < |DefaultThemes| ==> !Under(p, ThemeRoot(d, DefaultThemes[i]))
  }

  /** A path survives the cleanup when both groups of roots spare it. */
  lemma SurvivesByGroups(p: Path, d: Path, w: string)
    requires SparedBySubmodule(p, d, w) && SparedByContent(p, d)
    ensures !UnderAny(p, CleanupRoots(d, w))
  {
    RootsShape(d, w);
    var r := CleanupRoots(d, w);
    forall i | 0 <= i < |r| ensures !Under(p, r[i]) {
      if i >= 4 {
        assert r[4 + (i - 4)] == ThemeRoot(d, DefaultThemes[i - 4]);
      }
    }
  }

  /** Every depth-0 entry of the target directory survives the cleanup, the sub-module folder included. */
  lemma TopLevelSurvives(d: Path, w: string, name: string)
    requires '/' !in name
    ensures !UnderAny(d + "/" + name, CleanupRoots(d, w))
  {
    TopLevelSparedBySubmodule(d, w, name);
    TopLevelSparedByContent(d, name);
    SurvivesByGroups(d + "/" + name, d, w);
  }

  /** The sub-module's removal roots are one level deeper than any depth-0 entry. */
  lemma TopLevelSparedBySubmodule(d: Path, w: string, name: string)
    requires '/' !in name
    ensures SparedBySubmodule(d + "/" + name, d, w)
  {
    var sub := ["/wp-config-sample.php", "/index.php", "/wp-content"];
    forall k | 0 <= k < 3 ensures !Under(d + "/" + name, WpRoot(d, w) + sub[k]) {
      assert WpRoot(d, w) + sub[k] == (d + "/") + (w + sub[k]);
      assert (w + sub[k])[|w|] == '/';
      ComponentNotUnderDeeperAfter(d + "/", name, w + sub[k]);
    }
    assert !Under(d + "/" + name, WpRoot(d, w) + sub[0]);
    assert !Under(d + "/" + name, WpRoot(d, w) + sub[1]);
    assert !Under(d + "/" + name, WpRoot(d, w) + sub[2]);
  }

  /** The sample plugin and the themes lie deeper than any depth-0 entry. */
  lemma TopLevelSparedByContent(d: Path, name: string)
    requires '/' !in name
    ensures SparedByContent(d + "/" + name, d)
  {
    TopLevelSparesPlugin(d, name);
    forall i | 0 <= i < |DefaultThemes| ensures !Under(d + "/" + name, ThemeRoot(d, DefaultThemes[i])) {
      TopLevelSparesTheme(d, name, DefaultThemes[i]);
    }
  }

  /** The sample plugin lies deeper than any depth-0 entry. */
  lemma TopLevelSparesPlugin(d: Path, name: string)
    requires '/' !in name
    ensures !Under(d + "/" + name, d + "/wp-content/plugins/hello.php")
  {
    assert d + "/wp-content/plugins/hello.php" == (d + "/") + "wp-content/plugins/hello.php";
    assert "wp-content/plugins/hello.php"[10] == '/';
    ComponentNotUnderDeeperAfter(d + "/", name, "wp-content/plugins/hello.php");
  }

  /** A theme's folder lies deeper than any depth-0 entry. */
  lemma TopLevelSparesTheme(d: Path, name: string, theme: string)
    requires '/' !in name
    ensures !Under(d + "/" + name, ThemeRoot(d, theme))
  {
    var rest := "wp-content/themes/" + theme;
    assert ThemeRoot(d, theme) == (d + "/") + rest;
    assert rest[10] == '/';
    ComponentNotUnderDeeperAfter(d + "/", name, rest);
  }

  /** A path below the sub-module survives unless it is one of the three removed entries. */
  lemma CoreSurvives(d: Path, w: string, name: string, rel: string)
    requires '/' !in w && w != "wp-content"
    requires '/' !in name && IsTail(rel)
    requires name != "wp-config-sample.php" && name != "index.php" && name != "wp-content"
    ensures !UnderAny(WpRoot(d, w) + "/" + name + rel, CleanupRoots(d, w))
  {
    var p := WpRoot(d, w) + "/" + name + rel;
    CoreSparedBySubmodule(d, w, name, rel);
    ContentRootsSpareSubmodule(d, w, "/" + name + rel);
    assert p == WpRoot(d, w) + ("/" + name + rel);
    SurvivesByGroups(p, d, w);
  }

  /** Inside the sub-module, the three removals spare every other entry. */
  lemma CoreSparedBySubmodule(d: Path, w: string, name: string, rel: string)
    requires '/' !in name && IsTail(rel)
    requires name != "wp-config-sample.php" && name != "index.php" && name != "wp-content"
    ensures SparedBySubmodule(WpRoot(d, w) + "/" + name + rel, d, w)
  {
    var wp := WpRoot(d, w);
    assert wp + "/wp-config-sample.php" == (wp + "/") + "wp-config-sample.php" + "";
    UnderAfterPrefix(wp + "/", name, rel, "wp-config-sample.php", "");
    assert wp + "/index.php" == (wp + "/") + "index.php" + "";
    UnderAfterPrefix(wp + "/", name, rel, "index.php", "");
    assert wp + "/wp-content" == (wp + "/") + "wp-content" + "";
    UnderAfterPrefix(wp + "/", name, rel, "wp-content", "");
  }

  /** The sample plugin and the bundled themes lie outside the sub-module. */
  lemma ContentRootsSpareSubmodule(d: Path, w: string, rel: string)
    requires '/' !in w && w != "wp-content" && IsTail(rel)
    ensures SparedByContent(WpRoot(d, w) + rel, d)
  {
    var p := WpRoot(d, w) + rel;
    assert d + "/wp-content/plugins/hello.php" == (d + "/") + "wp-content" + "/plugins/hello.php";
    UnderAfterPrefix(d + "/", w, rel, "wp-content", "/plugins/hello.php");
    forall i | 0 <= i < |DefaultThemes| ensures !Under(p, ThemeRoot(d, DefaultThemes[i])) {
      var tail := "/themes/" + DefaultThemes[i];
      assert ThemeRoot(d, DefaultThemes[i]) == (d + "/") + "wp-content" + tail;
      UnderAfterPrefix(d + "/", w, rel, "wp-content", tail);
    }
  }

  /** The three removals inside the sub-module spare the site's own content directory. */
  lemma WpRootsSpareContent(d: Path, w: string, rel: string)
    requires '/' !in w && w != "wp-content" && IsTail(rel)
    ensures SparedBySubmodule(d + "/wp-content" + rel, d, w)
  {
    var p := d + "/wp-content" + rel;
    assert p == (d + "/") + "wp-content" + rel;
    UnderAfterPrefix(d + "/", "wp-content", rel, w, "/wp-config-sample.php");
    UnderAfterPrefix(d + "/", "wp-content", rel, w, "/index.php");
    UnderAfterPrefix(d + "/", "wp-content", rel, w, "/wp-content");
  }

  /** In the site's content directory, everything outside `plugins` and `themes` survives. */
  lemma ContentEntrySurvives(d: Path, w: string, name: string, rel: string)
    requires '/' !in w && w != "wp-content"
    requires '/' !in name && IsTail(rel)
    requires name != "plugins" && name != "themes"
    ensures !UnderAny(d + "/wp-content/" + name + rel, CleanupRoots(d, w))
  {
    var p := d + "/wp-content/" + name + rel;
    ContentPrefix(d);
    assert p == d + "/wp-content" + ("/" + name + rel);
    WpRootsSpareContent(d, w, "/" + name + rel);
    ContentEntrySparedByContent(d, name, rel);
    SurvivesByGroups(p, d, w);
  }

  /** The plugin and theme removals spare the content directory's other entries. */
  lemma ContentEntrySparedByContent(d: Path, name: string, rel: string)
    requires '/' !in name && IsTail(rel)
    requires name != "plugins" && name != "themes"
    ensures SparedByContent(d + "/wp-content/" + name + rel, d)
  {
    var p := d + "/wp-content/" + name + rel;
    assert d + "/wp-content/plugins/hello.php" == (d + "/wp-content/") + "plugins" + "/hello.php";
    UnderAfterPrefix(d + "/wp-content/", name, rel, "plugins", "/hello.php");
    forall i | 0 <= i < |DefaultThemes| ensures !Under(p, ThemeRoot(d, DefaultThemes[i])) {
      ThemeRootSplit(d, DefaultThemes[i]);
      UnderAfterPrefix(d + "/wp-content/", name, rel, "themes", "/" + DefaultThemes[i]);
    }
  }

  /** A plugin other than the sample `hello.php` survives, with everything under it. */
  lemma OtherPluginSurvives(d: Path, w: string, name: string, rel: string)
    requires '/' !in w && w != "wp-content"
    requires '/' !in name && IsTail(rel)
    requires name != "hello.php"
    ensures !UnderAny(d + "/wp-content/plugins/" + name + rel, CleanupRoots(d, w))
  {
    var p := d + "/wp-content/plugins/" + name + rel;
    assert d + "/wp-content/plugins/" == d + "/wp-content" + "/plugins/";
    assert p == d + "/wp-content" + ("/plugins/" + name + rel);
    WpRootsSpareContent(d, w, "/plugins/" + name + rel);
    PluginSparedByContent(d, name, rel);
    SurvivesByGroups(p, d, w);
  }

  /** The plugin and theme removals spare every plugin but the sample one. */
  lemma PluginSparedByContent(d: Path, name: string, rel: string)
    requires '/' !in name && IsTail(rel)
    requires name != "hello.php"
    ensures SparedByContent(d + "/wp-content/plugins/" + name + rel, d)
  {
    var p := d + "/wp-content/plugins/" + name + rel;
    assert d + "/wp-content/plugins/hello.php" == (d + "/wp-content/plugins/") + "hello.php" + "";
    UnderAfterPrefix(d + "/wp-content/plugins/", name, rel, "hello.php", "");
    assert d + "/wp-content/plugins/" == d + "/wp-content/" + "plugins" + "/";
    assert p == (d + "/wp-content/") + "plugins" + ("/" + name + rel);
    forall i | 0 <= i < |DefaultThemes| ensures !Under(p, ThemeRoot(d, DefaultThemes[i])) {
      ThemeRootSplit(d, DefaultThemes[i]);
      UnderAfterPrefix(d + "/wp-content/", "plugins", "/" + name + rel, "themes", "/" + DefaultThemes[i]);
    }
  }

  /** A theme other than the bundled ones survives, with everything under it. */
  lemma OtherThemeSurvives(d: Path, w: string, name: string, rel: string)
    requires '/' !in w && w != "wp-content"
    requires '/' !in name && IsTail(rel)
    requires name !in DefaultThemes
    ensures !UnderAny(ThemeRoot(d, name) + rel, CleanupRoots(d, w))
  {
    var p := ThemeRoot(d, name) + rel;
    assert "/wp-content/themes/" == "/wp-content" + "/themes/";
    assert p == d + "/wp-content" + ("/themes/" + name + rel);
    WpRootsSpareContent(d, w, "/themes/" + name + rel);
    ThemeSparedByContent(d, name, rel);
    SurvivesByGroups(p, d, w);
  }

  /** The plugin and theme removals spare every theme but the bundled ones. */
  lemma ThemeSparedByContent(d: Path, name: string, rel: string)
    requires '/' !in name && IsTail(rel)
    requires name !in DefaultThemes
    ensures SparedByContent(ThemeRoot(d, name) + rel, d)
  {
    ThemesSparePlugin(d, name, rel);
    forall i | 0 <= i < |DefaultThemes| ensures !Under(ThemeRoot(d, name) + rel, ThemeRoot(d, DefaultThemes[i])) {
      ThemesApart(d, name, rel, DefaultThemes[i]);
    }
  }

  /** Nothing under the themes folder lies under the sample plugin. */
  lemma ThemesSparePlugin(d: Path, name: string, rel: string)
    requires '/' !in name && IsTail(rel)
    ensures !Under(ThemeRoot(d, name) + rel, d + "/wp-content/plugins/hello.php")
  {
    ThemeRootSplit(d, name);
    assert ThemeRoot(d, name) + rel == (d + "/wp-content/") + "themes" + ("/" + name + rel);
    assert d + "/wp-content/plugins/hello.php" == (d + "/wp-content/") + "plugins" + "/hello.php";
    UnderAfterPrefix(d + "/wp-content/", "themes", "/" + name + rel, "plugins", "/hello.php");
  }

  /** A path under one theme's folder lies under another theme's folder only if the names agree. */
  lemma ThemesApart(d: Path, name: string, rel: string, other: string)
    requires '/' !in name && '/' !in other && IsTail(rel)
    ensures Under(ThemeRoot(d, name) + rel, ThemeRoot(d, other)) ==> name == other
  {
    assert ThemeRoot(d, other) == (d + "/wp-content/themes/") + other + "";
    UnderAfterPrefix(d + "/wp-content/themes/", name, rel, other, "");
  }

  /** A theme's root, split at the content directory. */
  lemma ThemeRootSplit(d: Path, theme: string)
    ensures ThemeRoot(d, theme) == (d + "/wp-content/") + "themes" + ("/" + theme)
  {
    assert "/wp-content/themes/" == "/wp-content/" + "themes" + "/";
  }

  /** The content directory's prefix, split at its last separator. */
  lemma ContentPrefix(d: Path)
    ensures d + "/wp-content/" == d + "/wp-content" + "/"
  {
  }

  /** Under a tail, a path stays under its prefix. */
  lemma TailStaysUnder(p: Path, rel: string)
    requires IsTail(rel)
    ensures Under(p + rel, p)
  {
    if rel != [] {
      assert (p + rel)[..|p| + 1] == p + "/";
    }
  }

  /** The relocation's sources and targets, pairwise apart from the content directory and each other. */
  lemma MovePathsApart(d: Path, w: string)
    requires '/' !in w && w != "wp-content"
    ensures !Under(WpRoot(d, w) + "/wp-config-sample.php", d + "/wp-content")
    ensures !Under(WpRoot(d, w) + "/index.php", d + "/wp-content")
    ensures !Under(d + "/wp-config.php", d + "/wp-content")
    ensures !Under(d + "/index.php", d + "/wp-content")
    ensures d + "/wp-config.php" != WpRoot(d, w) + "/index.php"
    ensures d + "/wp-config.php" != d + "/index.php"
  {
    assert d + "/wp-content" == (d + "/") + "wp-content" + "";
    UnderAfterPrefix(d + "/", w, "/wp-config-sample.php", "wp-content", "");
    UnderAfterPrefix(d + "/", w, "/index.php", "wp-content", "");
    assert d + "/wp-config.php" == (d + "/") + "wp-config.php" + "";
    UnderAfterPrefix(d + "/", "wp-config.php", "", "wp-content", "");
    assert d + "/index.php" == (d + "/") + "index.php" + "";
    UnderAfterPrefix(d + "/", "index.php", "", "wp-content", "");
    UnderAfterPrefix(d + "/", "wp-config.php", "", w, "/index.php");
    assert !Under("", "/index.php");
    UnderAfterPrefix(d + "/", "wp-config.php", "", "index.php", "");
  }

  /**
   * With the sub-module checked out, `moveWordPressContent` succeeds: the
   * configuration sample and `index.php` land at the site's root, the
   * content directory is copied up node by node, and nothing else changes.
   */
  lemma MoveLayout(t: Tree, d: Path, w: string)
    requires '/' !in w && w != "wp-content"
    requires WpRoot(d, w) + "/wp-content" in t && t[WpRoot(d, w) + "/wp-content"].Dir?
    requires WpRoot(d, w) + "/wp-config-sample.php" in t && t[WpRoot(d, w) + "/wp-config-sample.php"].File?
    requires WpRoot(d, w) + "/index.php" in t && t[WpRoot(d, w) + "/index.php"].File?
    requires d + "/wp-config.php" in t ==> t[d + "/wp-config.php"].File?
    requires d + "/index.php" in t ==> t[d + "/index.php"].File?
    ensures MoveSpec(t, d, w).outcome == Pass
    ensures d + "/wp-config.php" in MoveSpec(t, d, w).tree
    ensures MoveSpec(t, d, w).tree[d + "/wp-config.php"] == t[WpRoot(d, w) + "/wp-config-sample.php"]
    ensures d + "/index.php" in MoveSpec(t, d, w).tree
    ensures MoveSpec(t, d, w).tree[d + "/index.php"] == t[WpRoot(d, w) + "/index.php"]
    ensures forall rel :: IsTail(rel) && WpRoot(d, w) + "/wp-content" + rel in t ==>
              d + "/wp-content" + rel in MoveSpec(t, d, w).tree &&
              MoveSpec(t, d, w).tree[d + "/wp-content" + rel] == t[WpRoot(d, w) + "/wp-content" + rel]
    ensures forall rel :: IsTail(rel) && d + "/wp-content" + rel in t && WpRoot(d, w) + "/wp-content" + rel !in t ==>
              d + "/wp-content" + rel in MoveSpec(t, d, w).tree &&
              MoveSpec(t, d, w).tree[d + "/wp-content" + rel] == t[d + "/wp-content" + rel]
    ensures forall p :: !Under(p, d + "/wp-content") && p != d + "/wp-config.php" && p != d + "/index.php" ==>
              (p in MoveSpec(t, d, w).tree <==> p in t) &&
              (p in t ==> MoveSpec(t, d, w).tree[p] == t[p])
    ensures forall p :: p in MoveSpec(t, d, w).tree && p !in t ==>
              p == d + "/wp-config.php" || p == d + "/index.php" ||
              (Under(p, d + "/wp-content") && WpRoot(d, w) + "/wp-content" + p[|d + "/wp-content"|..] in t)
  {
    var wp := WpRoot(d, w);
    var src, dst := wp + "/wp-content", d + "/wp-content";
    var sample, entry := wp + "/wp-config-sample.php", wp + "/index.php";
    var config, index := d + "/wp-config.php", d + "/index.php";
    MovePathsApart(d, w);
    var t1 := MirrorTree(t, src, dst);
    MirrorFrame(t, src, dst, sample);
    MirrorFrame(t, src, dst, entry);
    MirrorFrame(t, src, dst, config);
    MirrorFrame(t, src, dst, index);
    assert MirrorSpec(t, src, dst) == Effect(Pass, t1);
    var t2 := t1[config := t1[sample]];
    assert CopySpec(t1, sample, config) == Effect(Pass, t2);
    assert t2[entry] == t[entry];
    var t3 := t2[index := t2[entry]];
    assert CopySpec(t2, entry, index) == Effect(Pass, t3);
    assert MoveSpec(t, d, w) == Effect(Pass, t3);
    forall rel | IsTail(rel) && src + rel in t
      ensures dst + rel in t3 && t3[dst + rel] == t[src + rel]
    {
      MirrorCopies(t, src, dst, rel);
      TailStaysUnder(dst, rel);
    }
    forall rel | IsTail(rel) && dst + rel in t && src + rel !in t
      ensures dst + rel in t3 && t3[dst + rel] == t[dst + rel]
    {
      MirrorKeepsUncopied(t, src, dst, rel);
      TailStaysUnder(dst, rel);
    }
    forall p | !Under(p, dst) && p != config && p != index
      ensures (p in t3 <==> p in t) && (p in t ==> t3[p] == t[p])
    {
      MirrorFrame(t, src, dst, p);
    }
    forall p | p in t3 && p !in t && p != config && p != index
      ensures Under(p, dst) && src + p[|dst|..] in t
    {
      MirrorAddsOnlyCopies(t, src, dst, p);
    }
  }

  /** Without a checked-out content directory, relocation stops at once and changes nothing. */
  lemma MoveFailsWithoutCheckout(t: Tree, d: Path, w: string)
    requires WpRoot(d, w) + "/wp-content" !in t
    ensures MoveSpec(t, d, w) == Effect(Fail(NotFound(WpRoot(d, w) + "/wp-content")), t)
  {
  }

  /** A depth-0 entry of the target is one the Finder yields exactly when its name is a PHP file name. */
  lemma DepthZeroPhpOf(d: Path, x: string)
    ensures DepthZeroPhp(d, d + "/" + x) <==> PhpFileName(x)
  {
    var p := d + "/" + x;
    assert p[..|d| + 1] == d + "/";
    assert p[|d| + 1..] == x;
  }

  /** Nothing under the content directory is a depth-0 PHP file. */
  lemma ContentNotTemplated(d: Path, rel: string)
    requires IsTail(rel)
    ensures !DepthZeroPhp(d, d + "/wp-content" + rel)
  {
    assert "/wp-content" == "/" + "wp-content";
    assert d + "/wp-content" + rel == d + "/" + ("wp-content" + rel);
    DepthZeroPhpOf(d, "wp-content" + rel);
    if rel == [] {
      assert ("wp-content" + rel)[6..] == "tent";
    } else {
      assert ("wp-content" + rel)[10] == '/';
    }
  }

  /** The pruning removes every path under one of the twelve roots. */
  lemma CleanupRemovesRoots(t: Tree, d: Path, w: string, p: Path)
    requires UnderAny(p, CleanupRoots(d, w))
    ensures p !in CleanupSpec(t, d, w)
  {
    PruneExactly(t, CleanupRoots(d, w), p);
  }

  /** Every other path is kept, rewritten when it is a depth-0 PHP file and unchanged otherwise. */
  lemma CleanupKeepsRest(t: Tree, d: Path, w: string, p: Path)
    requires p in t && !UnderAny(p, CleanupRoots(d, w))
    ensures p in CleanupSpec(t, d, w)
    ensures CleanupSpec(t, d, w)[p] ==
              if t[p].File? && DepthZeroPhp(d, p) then File(Rewrite(w, t[p].contents)) else t[p]
  {
    PruneExactly(t, CleanupRoots(d, w), p);
  }

  /** The cleanup adds no path. */
  lemma CleanupAddsNothing(t: Tree, d: Path, w: string)
    ensures CleanupSpec(t, d, w).Keys <= t.Keys
  {
  }

  /**
   * The layout a run leaves once the shell command has checked out the
   * sub-module: the site's `wp-config.php` and `index.php` are the
   * sub-module's sample configuration and front controller with the
   * constants block and the redirected header; the content directory is
   * copied up without the sample plugin and the bundled themes; the
   * sub-module's three relocated entries are gone; and every other path is
   * kept as it was, except that depth-0 PHP files are rewritten.
   */
  lemma InstallLayout(t: Tree, d: Path, w: string, sample: string, entry: string)
    requires '/' !in w && w != "wp-content"
    requires WpRoot(d, w) + "/wp-content" in t && t[WpRoot(d, w) + "/wp-content"].Dir?
    requires WpRoot(d, w) + "/wp-config-sample.php" in t && t[WpRoot(d, w) + "/wp-config-sample.php"] == File(sample)
    requires WpRoot(d, w) + "/index.php" in t && t[WpRoot(d, w) + "/index.php"] == File(entry)
    requires d + "/wp-config.php" in t ==> t[d + "/wp-config.php"].File?
    requires d + "/index.php" in t ==> t[d + "/index.php"].File?
    ensures FinishSpec(t, d, w).outcome == Pass
    ensures d + "/wp-config.php" in FinishSpec(t, d, w).tree
    ensures FinishSpec(t, d, w).tree[d + "/wp-config.php"] == File(Rewrite(w, sample))
    ensures d + "/index.php" in FinishSpec(t, d, w).tree
    ensures FinishSpec(t, d, w).tree[d + "/index.php"] == File(Rewrite(w, entry))
    ensures forall p :: UnderAny(p, CleanupRoots(d, w)) ==> p !in FinishSpec(t, d, w).tree
    ensures forall rel :: IsTail(rel) && WpRoot(d, w) + "/wp-content" + rel in t &&
                          !UnderAny(d + "/wp-content" + rel, CleanupRoots(d, w)) ==>
              d + "/wp-content" + rel in FinishSpec(t, d, w).tree &&
              FinishSpec(t, d, w).tree[d + "/wp-content" + rel] == t[WpRoot(d, w) + "/wp-content" + rel]
    ensures forall rel :: IsTail(rel) && d + "/wp-content" + rel in t && WpRoot(d, w) + "/wp-content" + rel !in t &&
                          !UnderAny(d + "/wp-content" + rel, CleanupRoots(d, w)) ==>
              d + "/wp-content" + rel in FinishSpec(t, d, w).tree &&
              FinishSpec(t, d, w).tree[d + "/wp-content" + rel] == t[d + "/wp-content" + rel]
    ensures forall p :: p in t && !Under(p, d + "/wp-content") && p != d + "/wp-config.php" &&
                        p != d + "/index.php" && !UnderAny(p, CleanupRoots(d, w)) ==>
              p in FinishSpec(t, d, w).tree &&
              FinishSpec(t, d, w).tree[p] ==
                if t[p].File? && DepthZeroPhp(d, p) then File(Rewrite(w, t[p].contents)) else t[p]
    ensures forall p :: p in FinishSpec(t, d, w).tree && p !in t ==>
              p == d + "/wp-config.php" || p == d + "/index.php" ||
              (Under(p, d + "/wp-content") && WpRoot(d, w) + "/wp-content" + p[|d + "/wp-content"|..] in t)
  {
    MoveLayout(t, d, w);
    var m := MoveSpec(t, d, w).tree;
    assert FinishSpec(t, d, w) == Effect(Pass, CleanupSpec(m, d, w));
    EntryFilesTemplated(m, d, w, sample, entry);
    forall p | UnderAny(p, CleanupRoots(d, w)) ensures p !in CleanupSpec(m, d, w) {
      CleanupRemovesRoots(m, d, w, p);
    }
    ContentKept(t, m, d, w);
    PreexistingContentKept(t, m, d, w);
    OthersKept(t, m, d, w);
    CleanupAddsNothing(m, d, w);
  }

  /** The two relocated entry files are templated. */
  lemma EntryFilesTemplated(m: Tree, d: Path, w: string, sample: string, entry: string)
    requires d + "/wp-config.php" in m && m[d + "/wp-config.php"] == File(sample)
    requires d + "/index.php" in m && m[d + "/index.php"] == File(entry)
    ensures d + "/wp-config.php" in CleanupSpec(m, d, w)
    ensures CleanupSpec(m, d, w)[d + "/wp-config.php"] == File(Rewrite(w, sample))
    ensures d + "/index.php" in CleanupSpec(m, d, w)
    ensures CleanupSpec(m, d, w)[d + "/index.php"] == File(Rewrite(w, entry))
  {
    assert "/wp-config.php" == "/" + "wp-config.php";
    assert d + "/wp-config.php" == d + "/" + "wp-config.php";
    assert PhpFileName("wp-config.php");
    TopLevelPhpTemplated(m, d, w, "wp-config.php", sample);
    assert "/index.php" == "/" + "index.php";
    assert d + "/index.php" == d + "/" + "index.php";
    assert PhpFileName("index.php");
    TopLevelPhpTemplated(m, d, w, "index.php", entry);
  }

  /** A PHP file at the site's root survives the pruning and is templated. */
  lemma TopLevelPhpTemplated(m: Tree, d: Path, w: string, name: string, contents: string)
    requires PhpFileName(name)
    requires d + "/" + name in m && m[d + "/" + name] == File(contents)
    ensures d + "/" + name in CleanupSpec(m, d, w)
    ensures CleanupSpec(m, d, w)[d + "/" + name] == File(Rewrite(w, contents))
  {
    TopLevelSurvives(d, w, name);
    DepthZeroPhpOf(d, name);
    CleanupKeepsRest(m, d, w, d + "/" + name);
  }

  /** The copied content directory is kept, except under the removal roots. */
  lemma ContentKept(t: Tree, m: Tree, d: Path, w: string)
    requires forall rel :: IsTail(rel) && WpRoot(d, w) + "/wp-content" + rel in t ==>
               d + "/wp-content" + rel in m && m[d + "/wp-content" + rel] == t[WpRoot(d, w) + "/wp-content" + rel]
    ensures forall rel :: IsTail(rel) && WpRoot(d, w) + "/wp-content" + rel in t &&
                          !UnderAny(d + "/wp-content" + rel, CleanupRoots(d, w)) ==>
              d + "/wp-content" + rel in CleanupSpec(m, d, w) &&
              CleanupSpec(m, d, w)[d + "/wp-content" + rel] == t[WpRoot(d, w) + "/wp-content" + rel]
  {
    forall rel | IsTail(rel) && WpRoot(d, w) + "/wp-content" + rel in t &&
                 !UnderAny(d + "/wp-content" + rel, CleanupRoots(d, w))
      ensures d + "/wp-content" + rel in CleanupSpec(m, d, w)
      ensures CleanupSpec(m, d, w)[d + "/wp-content" + rel] == t[WpRoot(d, w) + "/wp-content" + rel]
    {
      ContentNotTemplated(d, rel);
      CleanupKeepsRest(m, d, w, d + "/wp-content" + rel);
    }
  }

  /** What the content directory held before the relocation and the mirror did not overwrite is kept, except under the removal roots. */
  lemma PreexistingContentKept(t: Tree, m: Tree, d: Path, w: string)
    requires forall rel :: IsTail(rel) && d + "/wp-content" + rel in t && WpRoot(d, w) + "/wp-content" + rel !in t ==>
               d + "/wp-content" + rel in m && m[d + "/wp-content" + rel] == t[d + "/wp-content" + rel]
    ensures forall rel :: IsTail(rel) && d + "/wp-content" + rel in t && WpRoot(d, w) + "/wp-content" + rel !in t &&
                          !UnderAny(d + "/wp-content" + rel, CleanupRoots(d, w)) ==>
              d + "/wp-content" + rel in CleanupSpec(m, d, w) &&
              CleanupSpec(m, d, w)[d + "/wp-content" + rel] == t[d + "/wp-content" + rel]
  {
    forall rel | IsTail(rel) && d + "/wp-content" + rel in t && WpRoot(d, w) + "/wp-content" + rel !in t &&
                 !UnderAny(d + "/wp-content" + rel, CleanupRoots(d, w))
      ensures d + "/wp-content" + rel in CleanupSpec(m, d, w)
      ensures CleanupSpec(m, d, w)[d + "/wp-content" + rel] == t[d + "/wp-content" + rel]
    {
      ContentNotTemplated(d, rel);
      CleanupKeepsRest(m, d, w, d + "/wp-content" + rel);
    }
  }

  /** Outside the content directory and the two entry files, the relocation's frame carries over to the cleanup. */
  lemma OthersKept(t: Tree, m: Tree, d: Path, w: string)
    requires forall p :: !Under(p, d + "/wp-content") && p != d + "/wp-config.php" && p != d + "/index.php" ==>
               (p in m <==> p in t) && (p in t ==> m[p] == t[p])
    ensures forall p :: p in t && !Under(p, d + "/wp-content") && p != d + "/wp-config.php" &&
                        p != d + "/index.php" && !UnderAny(p, CleanupRoots(d, w)) ==>
              p in CleanupSpec(m, d, w) &&
              CleanupSpec(m, d, w)[p] ==
                if t[p].File? && DepthZeroPhp(d, p) then File(Rewrite(w, t[p].contents)) else t[p]
    ensures forall p :: p in CleanupSpec(m, d, w) && !Under(p, d + "/wp-content") &&
                        p != d + "/wp-config.php" && p != d + "/index.php"
                        ==> p in t
  {
    CleanupAddsNothing(m, d, w);
    forall p | p in t && !Under(p, d + "/wp-content") && p != d + "/wp-config.php" && p != d + "/index.php"
               && !UnderAny(p, CleanupRoots(d, w))
      ensures p in CleanupSpec(m, d, w)
      ensures CleanupSpec(m, d, w)[p] == if t[p].File? && DepthZeroPhp(d, p) then File(Rewrite(w, t[p].contents)) else t[p]
    {
      CleanupKeepsRest(m, d, w, p);
    }
  }
}
