/**
 * The rewrite `enterCustomConfiguration` applies to the text of every
 * top-level PHP file of the new site: the MySQL marker comment becomes a
 * block of `define(...)` constants ending with the marker again, and the
 * root-relative include of `wp-blog-header.php` is redirected into the
 * WordPress sub-directory.
 */
module Templating {
  import opened StrReplace

  /** PHP_EOL on Unix-like systems; the `"\r\n"` of Windows is not modelled. */
  const Eol := "\n"

  /** The placeholder comment of `wp-config-sample.php`. */
  const Marker := "// ** MySQL settings - You can get this info from your web host ** //"

  /** The include path of core bootstrap in WordPress's `index.php`. */
  const Header := "/wp-blog-header.php"

  const ConstantsComment := "// ** WordPress Configuration Constants ** //"
  /** The `WP_SITEURL` define up to the sub-directory name. */
  const SiteUrlOpen := "define('WP_SITEURL', 'https://' . $_SERVER['SERVER_NAME'] . '/"
  const SiteUrlClose := "');"
  const HomeDefine := "define('WP_HOME', 'https://' . $_SERVER['SERVER_NAME']);"
  const ContentDirDefine := "define('WP_CONTENT_DIR', $_SERVER['DOCUMENT_ROOT'] . '/wp-content');"
  const ContentUrlDefine := "define('WP_CONTENT_URL', 'https://' . $_SERVER['SERVER_NAME'] . '/wp-content');"

  /** The `WP_SITEURL` line, the only line that depends on the sub-directory. */
  function SiteUrlDefine(wpdir: string): string
  {
    SiteUrlOpen + wpdir + SiteUrlClose
  }

  /**
   * The part of the constants block before the sub-directory name: the
   * comment line and the `WP_SITEURL` define up to `'/`.
   */
  const BlockHead := ConstantsComment + Eol + SiteUrlOpen

  /**
   * The part of the constants block after the sub-directory name: the end of
   * the `WP_SITEURL` line, the `WP_HOME`, `WP_CONTENT_DIR` and
   * `WP_CONTENT_URL` defines, an empty line and the marker line.
   */
  const BlockTail := SiteUrlClose + OtherLines

  /**
   * The lines after the `WP_SITEURL` define: the `WP_HOME`,
   * `WP_CONTENT_DIR` and `WP_CONTENT_URL` defines, an empty line and the
   * marker, starting with the line end of the `WP_SITEURL` line.
   */
  const OtherLines := OtherDefines + Marker

  /** The three defines that do not depend on the sub-directory, each line ended, and an empty line. */
  const OtherDefines := Eol + HomeDefine + Eol + ContentDirDefine + Eol + ContentUrlDefine + Eol + Eol

  /** The constants block `$contants`, the lines above joined in order. */
  function Block(wpdir: string): string
  {
    BlockHead + wpdir + BlockTail
  }

  /** The include path after redirection into the sub-directory. */
  function RedirectedHeader(wpdir: string): string
  {
    "/" + wpdir + Header
  }

  /** The marker substitution, applied first. */
  function ExpandMarker(wpdir: string, text: string): string
  {
    Replace(Marker, Block(wpdir), text)
  }

  /** The whole rewrite: the include-path substitution applied to the marker-substituted text. */
  function Rewrite(wpdir: string, text: string): string
  {
    Replace(Header, RedirectedHeader(wpdir), ExpandMarker(wpdir, text))
  }

  /**
   * The block varies with the sub-directory only inside the `WP_SITEURL`
   * line: two blocks agree on everything before and after the name.
   */
  lemma BlockDependsOnlyOnSiteUrl(wpdir1: string, wpdir2: string)
    ensures |Block(wpdir1)| - |wpdir1| == |Block(wpdir2)| - |wpdir2|
    ensures Block(wpdir1)[..|BlockHead|] == Block(wpdir2)[..|BlockHead|] == BlockHead
    ensures Block(wpdir1)[|BlockHead| + |wpdir1|..] == Block(wpdir2)[|BlockHead| + |wpdir2|..]
    ensures Block(wpdir1)[|BlockHead|..|BlockHead| + |wpdir1|] == wpdir1
  {
    var b1, b2 := Block(wpdir1), Block(wpdir2);
    assert b1 == (BlockHead + wpdir1) + BlockTail;
    assert b1[|BlockHead| + |wpdir1|..] == BlockTail;
    assert b2[|BlockHead| + |wpdir2|..] == BlockTail;
  }

  /**
   * The block line by line: the comment, the `WP_SITEURL` define, then the
   * three defines that do not depend on the sub-directory, an empty line
   * and the marker.
   */
  lemma BlockLines(wpdir: string)
    ensures Block(wpdir) == ConstantsComment + Eol + SiteUrlDefine(wpdir) + OtherLines
  {
    Regroup(ConstantsComment, Eol, SiteUrlOpen, wpdir, SiteUrlClose, OtherLines);
  }

  /** Re-association of a concatenation of six parts. */
  lemma Regroup(a: string, b: string, c: string, w: string, e: string, f: string)
    ensures a + b + c + w + (e + f) == a + b + (c + w + e) + f
  {
  }

  /** The `WP_SITEURL` define points at `'/' . $wpdirectory` and closes right after it. */
  lemma SiteUrlEndsWithDirectory(wpdir: string)
    ensures var line := SiteUrlDefine(wpdir);
            |line| == |SiteUrlOpen| + |wpdir| + |SiteUrlClose| &&
            line[|SiteUrlOpen| - 1..|SiteUrlOpen| + |wpdir|] == "/" + wpdir &&
            line[|SiteUrlOpen| + |wpdir|..] == SiteUrlClose
  {
    var line := SiteUrlDefine(wpdir);
    assert SiteUrlOpen[|SiteUrlOpen| - 1] == '/';
    assert line[|SiteUrlOpen| - 1..|SiteUrlOpen| + |wpdir|] == [SiteUrlOpen[|SiteUrlOpen| - 1]] + wpdir;
  }

  /** The block ends with the marker line, so the marker survives as a trailing delimiter. */
  lemma BlockEndsWithMarker(wpdir: string)
    ensures |Block(wpdir)| >= |Marker|
    ensures Block(wpdir)[|Block(wpdir)| - |Marker|..] == Marker
  {
    EndsWith(BlockHead + wpdir, SiteUrlClose, OtherDefines, Marker);
  }

  /** A concatenation ends with its last part. */
  lemma EndsWith(x: string, y: string, z: string, m: string)
    ensures var s := x + (y + (z + m)); |s| >= |m| && s[|s| - |m|..] == m
  {
    var s := x + (y + (z + m));
    assert s == (x + y + z) + m;
  }

  /** A file with neither the marker nor the include path is written back byte for byte. */
  lemma RewriteNoMatch(wpdir: string, text: string)
    requires !Occurs(text, Marker) && !Occurs(text, Header)
    ensures Rewrite(wpdir, text) == text
  {
    ReplaceNoMatch(Marker, Block(wpdir), text);
    ReplaceNoMatch(Header, RedirectedHeader(wpdir), text);
  }

  /**
   * The first marker, at `k`, becomes the constants block; the text before
   * is kept and the scan goes on after the marker. The marker line itself
   * is found again at the end of the inserted block.
   */
  lemma ExpandFirstMarker(wpdir: string, text: string, k: nat)
    requires MatchAt(text, k, Marker)
    requires forall i :: 0 <= i < k ==> !MatchAt(text, i, Marker)
    ensures ExpandMarker(wpdir, text)
            == text[..k] + Block(wpdir) + ExpandMarker(wpdir, text[k + |Marker|..])
    ensures MatchAt(ExpandMarker(wpdir, text), k + |Block(wpdir)| - |Marker|, Marker)
  {
    ReplaceFirst(Marker, Block(wpdir), text, k);
    BlockEndsWithMarker(wpdir);
    ReplacementEndsWithNeedle(Marker, Block(wpdir), text, k);
  }

  /** The first include path, at `k` of the marker-substituted text, gains the sub-directory prefix. */
  lemma RedirectFirstHeader(wpdir: string, text: string, k: nat)
    requires MatchAt(ExpandMarker(wpdir, text), k, Header)
    requires forall i :: 0 <= i < k ==> !MatchAt(ExpandMarker(wpdir, text), i, Header)
    ensures var s := ExpandMarker(wpdir, text);
            Rewrite(wpdir, text)
            == s[..k] + RedirectedHeader(wpdir)
               + Replace(Header, RedirectedHeader(wpdir), s[k + |Header|..])
  {
    ReplaceFirst(Header, RedirectedHeader(wpdir), ExpandMarker(wpdir, text), k);
  }

  /**
   * The constants block holds no include path for any sub-directory name
   * without the letter `b`, the default `wordpress` among them: its lines
   * before the marker have no `b`, the marker has no `.`, and the include
   * path has both and no line end.
   */
  lemma BlockHasNoHeader(wpdir: string)
    requires 'b' !in wpdir
    ensures !Occurs(Block(wpdir), Header)
  {
    BlockHeadLacksB();
    OtherDefinesShape();
    MarkerLacksDot();
    assert 'b' !in SiteUrlClose;
    assert Block(wpdir) == BlockHead + wpdir + SiteUrlClose + OtherDefines + Marker;
    NoHeaderInPieces(BlockHead, wpdir, SiteUrlClose, OtherDefines, Marker);
  }

  /**
   * Text made of pieces without `b`, the last of them ending a line,
   * followed by a piece without `.`, holds no include path.
   */
  lemma NoHeaderInPieces(head: string, wpdir: string, close: string, lines: string, rest: string)
    requires 'b' !in head && 'b' !in wpdir && 'b' !in close && 'b' !in lines
    requires lines != [] && lines[|lines| - 1] == '\n'
    requires '.' !in rest
    ensures !Occurs(head + wpdir + close + lines + rest, Header)
  {
    var first := head + wpdir + close + lines;
    assert first[|first| - 1] == lines[|lines| - 1];
    HeaderChars();
    OccursBringsChar(first, Header, 4);
    OccursBringsChar(rest, Header, 15);
    OccursInJoin(first, rest, Header, '\n');
  }

  /** The include path has a `b` and a `.`, and no line end. */
  lemma HeaderChars()
    ensures Header[4] == 'b' && Header[15] == '.' && '\n' !in Header
  {
  }

  /** The block's lines before the sub-directory name have no `b`. */
  lemma BlockHeadLacksB()
    ensures 'b' !in BlockHead
  {
    ConstantsCommentLacksB();
    SiteUrlOpenLacksB();
  }

  /** The block's lines after the `WP_SITEURL` define have no `b` and end with a line end. */
  lemma OtherDefinesShape()
    ensures 'b' !in OtherDefines
    ensures OtherDefines != [] && OtherDefines[|OtherDefines| - 1] == '\n'
  {
    HomeDefineLacksB();
    ContentDirDefineLacksB();
    ContentUrlDefineLacksB();
  }

  /**
   * For the default sub-directory the configuration template's rewrite
   * needs no condition on the block: the sample's one marker becomes the
   * block and nothing else changes.
   */
  lemma RewriteDefaultConfigTemplate(before: string, after: string)
    requires !Occurs(before + Marker + after, Header)
    requires forall i :: MatchAt(before + Marker + after, i, Marker) ==> i == |before|
    ensures Rewrite("wordpress", before + Marker + after) == before + Block("wordpress") + after
  {
    DefaultBlockHasNoHeader();
    RewriteConfigTemplate("wordpress", before, after);
  }

  // The solver unfolds a string literal one character at a time and gives
  // up on long ones, so each of the following lemmas first states its fact
  // for the first forty characters of the constant.

  lemma ConstantsCommentLacksB()
    ensures 'b' !in ConstantsComment
  {
    assert 'b' !in "// ** WordPress Configuration Constants ";
  }

  lemma SiteUrlOpenLacksB()
    ensures 'b' !in SiteUrlOpen
  {
    assert 'b' !in "define('WP_SITEURL', 'https://' . $_SERV";
  }

  lemma HomeDefineLacksB()
    ensures 'b' !in HomeDefine
  {
    assert 'b' !in "define('WP_HOME', 'https://' . $_SERVER[";
  }

  lemma ContentDirDefineLacksB()
    ensures 'b' !in ContentDirDefine
  {
    assert 'b' !in "define('WP_CONTENT_DIR', $_SERVER['DOCUM";
  }

  lemma ContentUrlDefineLacksB()
    ensures 'b' !in ContentUrlDefine
  {
    assert 'b' !in "define('WP_CONTENT_URL', 'https://' . $_";
  }

  lemma MarkerLacksDot()
    ensures '.' !in Marker
  {
    assert '.' !in "// ** MySQL settings - You can get this ";
  }

  /** The block of the default sub-directory holds no include path. */
  lemma DefaultBlockHasNoHeader()
    ensures !Occurs(Block("wordpress"), Header)
  {
    BlockHasNoHeader("wordpress");
  }

  /**
   * A configuration template with one marker line and no include path
   * (the shape of `wp-config-sample.php`) gets the constants block in place
   * of the marker and nothing else changes.
   */
  lemma RewriteConfigTemplate(wpdir: string, before: string, after: string)
    requires !Occurs(before + Marker + after, Header)
    requires forall i :: MatchAt(before + Marker + after, i, Marker) ==> i == |before|
    requires !Occurs(Block(wpdir), Header)
    ensures Rewrite(wpdir, before + Marker + after) == before + Block(wpdir) + after
  {
    forall i | 0 <= i <= |before + Block(wpdir) + after| ensures !MatchAt(before + Block(wpdir) + after, i, Header) {
      if MatchAt(before + Block(wpdir) + after, i, Header) {
        HeaderMatchesAfterExpansion(wpdir, before, after, i);
      }
    }
    ExpandSoleMarker(wpdir, before, after);
    ReplaceNoMatch(Header, RedirectedHeader(wpdir), before + Block(wpdir) + after);
  }

  /** A text whose only marker follows `before` gets the block there and nothing else. */
  lemma ExpandSoleMarker(wpdir: string, before: string, y: string)
    requires forall i :: MatchAt(before + Marker + y, i, Marker) ==> i == |before|
    ensures ExpandMarker(wpdir, before + Marker + y) == before + Block(wpdir) + y
  {
    var text := before + Marker + y;
    var k := |before|;
    assert text[k..k + |Marker|] == Marker;
    ExpandFirstMarker(wpdir, text, k);
    assert text[k + |Marker|..] == y;
    forall i | 0 <= i <= |y| ensures !MatchAt(y, i, Marker) {
      MatchInSuffix(text, k + |Marker|, i, Marker);
    }
    ReplaceNoMatch(Marker, Block(wpdir), y);
    assert text[..k] == before;
  }

  /** The include path has its only `/` at the start. */
  lemma HeaderSlashFirst()
    ensures forall k :: 0 < k < |Header| ==> Header[k] != '/'
  {
  }

  /** The block starts with the comment line's `/`. */
  lemma BlockStartsWithSlash(wpdir: string)
    ensures Block(wpdir) != [] && Block(wpdir)[0] == '/'
  {
    assert ConstantsComment == "/" + ConstantsComment[1..];
    assert Block(wpdir) == ConstantsComment + (Eol + SiteUrlOpen + wpdir + BlockTail);
  }

  /**
   * Putting the block in place of the marker creates no include path: a
   * match in the substituted text, when the block itself holds none, is a
   * match of the original text, shifted by the growth when it lies after
   * the block.
   */
  lemma HeaderMatchesAfterExpansion(wpdir: string, x: string, y: string, i: int)
    requires !Occurs(Block(wpdir), Header)
    requires MatchAt(x + Block(wpdir) + y, i, Header)
    ensures i < |x| ==> MatchAt(x + Marker + y, i, Header)
    ensures i >= |x| ==> i >= |x| + |Block(wpdir)| - |Marker| &&
                         MatchAt(x + Marker + y, i - (|Block(wpdir)| - |Marker|), Header)
  {
    BlockShape(wpdir);
    WidenedHeaderMatch(x, y, Block(wpdir), i);
  }

  /** The two facts about the block that the widening argument needs: it ends with the marker and starts with a `/`. */
  lemma BlockShape(wpdir: string)
    ensures |Marker| <= |Block(wpdir)| && Block(wpdir)[|Block(wpdir)| - |Marker|..] == Marker
    ensures Block(wpdir) != [] && Block(wpdir)[0] == '/'
  {
    BlockEndsWithMarker(wpdir);
    BlockStartsWithSlash(wpdir);
  }

  /** The widening argument for any text ending with the marker and starting with a `/` in place of the marker. */
  lemma WidenedHeaderMatch(x: string, y: string, b: string, i: int)
    requires |Marker| <= |b| && b[|b| - |Marker|..] == Marker && b != [] && b[0] == '/'
    requires !Occurs(b, Header)
    requires MatchAt(x + b + y, i, Header)
    ensures i < |x| ==> MatchAt(x + Marker + y, i, Header)
    ensures i >= |x| ==> i >= |x| + |b| - |Marker| && MatchAt(x + Marker + y, i - (|b| - |Marker|), Header)
  {
    HeaderSlashFirst();
    MatchAcrossWidening(x, Marker, b, y, Header, i, '/');
  }

  /**
   * In the marker-substituted text of a file whose only include path lies
   * after its only marker, that include path is the only one: the block
   * brings none.
   */
  lemma SoleHeaderAfterExpansion(wpdir: string, before: string, mid: string, after: string, i: int)
    requires forall j :: MatchAt(before + Marker + mid + Header + after, j, Header) ==>
               j == |before| + |Marker| + |mid|
    requires !Occurs(Block(wpdir), Header)
    requires MatchAt(before + Block(wpdir) + (mid + Header + after), i, Header)
    ensures i == |before| + |Block(wpdir)| + |mid|
  {
    Regroup5(before, Marker, mid, Header, after);
    HeaderMatchesAfterExpansion(wpdir, before, mid + Header + after, i);
  }

  /**
   * A file with one marker and, later, one include path gets both
   * substitutions.
   */
  lemma RewriteConfiguredScript(wpdir: string, before: string, mid: string, after: string)
    requires forall i :: MatchAt(before + Marker + mid + Header + after, i, Marker) ==> i == |before|
    requires forall i :: MatchAt(before + Marker + mid + Header + after, i, Header) ==>
               i == |before| + |Marker| + |mid|
    requires !Occurs(Block(wpdir), Header)
    ensures Rewrite(wpdir, before + Marker + mid + Header + after)
            == before + Block(wpdir) + mid + RedirectedHeader(wpdir) + after
  {
    var y := mid + Header + after;
    var x := before + Block(wpdir) + mid;
    Regroup5(before, Marker, mid, Header, after);
    ExpandSoleMarker(wpdir, before, y);
    Regroup5(before, Block(wpdir), mid, Header, after);
    forall i | MatchAt(x + Header + after, i, Header) ensures i == |x| {
      SoleHeaderAfterExpansion(wpdir, before, mid, after, i);
    }
    RedirectSoleHeader(x, after, RedirectedHeader(wpdir));
  }

  /** Re-association of a concatenation of five parts, around its middle. */
  lemma Regroup5(a: string, b: string, c: string, d: string, e: string)
    ensures a + b + c + d + e == a + b + (c + d + e)
  {
  }

  /**
   * In a file with one marker and, later, one include path, the marker
   * line is still there at the end of the inserted block: the include-path
   * pass does not disturb it.
   */
  lemma MarkerSurvivesRedirect(wpdir: string, before: string, mid: string, after: string)
    requires forall i :: MatchAt(before + Marker + mid + Header + after, i, Marker) ==> i == |before|
    requires forall i :: MatchAt(before + Marker + mid + Header + after, i, Header) ==>
               i == |before| + |Marker| + |mid|
    requires !Occurs(Block(wpdir), Header)
    ensures MatchAt(Rewrite(wpdir, before + Marker + mid + Header + after),
                    |before| + |Block(wpdir)| - |Marker|, Marker)
  {
    RewriteConfiguredScript(wpdir, before, mid, after);
    Regroup5(before, Block(wpdir), mid, RedirectedHeader(wpdir), after);
    MarkerKeptAtBlockEnd(wpdir, before, mid + RedirectedHeader(wpdir) + after);
  }

  /** The only include path of `x + Header + y`, at the end of `x`, is replaced and nothing else changes. */
  lemma RedirectSoleHeader(x: string, y: string, repl: string)
    requires forall i :: MatchAt(x + Header + y, i, Header) ==> i == |x|
    ensures Replace(Header, repl, x + Header + y) == x + repl + y
  {
    var s := x + Header + y;
    var k := |x|;
    assert s[k..k + |Header|] == Header;
    ReplaceFirst(Header, repl, s, k);
    assert s[k + |Header|..] == y;
    forall i | 0 <= i <= |y| ensures !MatchAt(y, i, Header) {
      MatchInSuffix(s, k + |Header|, i, Header);
    }
    ReplaceNoMatch(Header, repl, y);
    assert s[..k] == x;
  }

  /** A text holding the block followed by anything has the marker at the end of the block. */
  lemma MarkerKeptAtBlockEnd(wpdir: string, before: string, after: string)
    ensures MatchAt(before + Block(wpdir) + after, |before| + |Block(wpdir)| - |Marker|, Marker)
  {
    BlockEndsWithMarker(wpdir);
    MatchAtEndOfMiddle(before, Block(wpdir), after, Marker);
  }

  /**
   * An entry script with one include path and no marker (the shape of
   * WordPress's `index.php`) gets the path redirected into the sub-directory
   * and nothing else changes.
   */
  lemma RewriteEntryScript(wpdir: string, before: string, after: string)
    requires !Occurs(before + Header + after, Marker)
    requires forall i :: MatchAt(before + Header + after, i, Header) ==> i == |before|
    ensures Rewrite(wpdir, before + Header + after) == before + RedirectedHeader(wpdir) + after
  {
    var text := before + Header + after;
    var k := |before|;
    ReplaceNoMatch(Marker, Block(wpdir), text);
    assert text[k..k + |Header|] == Header;
    RedirectFirstHeader(wpdir, text, k);
    var rest := text[k + |Header|..];
    assert rest == after;
    forall i | 0 <= i <= |rest| ensures !MatchAt(rest, i, Header) {
      MatchInSuffix(text, k + |Header|, i, Header);
    }
    ReplaceNoMatch(Header, RedirectedHeader(wpdir), rest);
    assert text[..k] == before;
  }
}
