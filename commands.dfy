/**
 * The shell command line `execute` hands to the process: six steps joined
 * with `" && "` by PHP's `implode`, and `explode`, its inverse: splitting
 * the line at `" && "` gives back the six steps. This is a statement about
 * the separator only, not about how a shell parses the line.
 */
module Commands {
  import opened Types
  import opened StrReplace

  const Separator := " && "

  /** The remote the sub-module is added from. */
  const Remote := "git@github.com:WordPress/WordPress.git"

  /** The six steps, in the order the command list gives them. */
  function Steps(wpdirectory: string, wpversion: string): seq<string>
  {
    [ "git init -q",
      "git submodule --quiet add " + Remote + " " + wpdirectory,
      "cd " + wpdirectory,
      "git fetch --tags -q",
      "git checkout " + wpversion + " -q",
      "echo Current WordPress version is: " + wpversion ]
  }

  /** PHP's `implode(glue, parts)`. */
  function Implode(glue: string, parts: seq<string>): string
    decreases |parts|
  {
    if |parts| == 0 then ""
    else if |parts| == 1 then parts[0]
    else parts[0] + glue + Implode(glue, parts[1..])
  }

  /** The command line handed to the shell. */
  function Compose(wpdirectory: string, wpversion: string): string
  {
    Implode(Separator, Steps(wpdirectory, wpversion))
  }

  /**
   * The index of the first occurrence of `sep` in `s`, if any; this is
   * where `explode` cuts.
   */
  function FirstMatch(s: string, sep: string): (r: Option<nat>)
    requires sep != []
    ensures r.None? <==> !Occurs(s, sep)
    ensures r.Some? ==> MatchAt(s, r.value, sep)
    ensures r.Some? ==> forall i :: 0 <= i < r.value ==> !MatchAt(s, i, sep)
    decreases |s|
  {
    if |s| < |sep| then None
    else if s[..|sep|] == sep then assert MatchAt(s, 0, sep); Some(0)
    else
      var rest := FirstMatch(s[1..], sep);
      assert !MatchAt(s, 0, sep);
      match rest
      case None =>
        assert forall i :: 1 <= i <= |s| ==> !MatchAt(s, i, sep) by {
          forall i | 1 <= i <= |s| ensures !MatchAt(s, i, sep) {
            MatchInSuffix(s, 1, i - 1, sep);
          }
        }
        None
      case Some(k) =>
        MatchInSuffix(s, 1, k, sep);
        assert forall i :: 1 <= i < k + 1 ==> !MatchAt(s, i, sep) by {
          forall i | 1 <= i < k + 1 ensures !MatchAt(s, i, sep) {
            MatchInSuffix(s, 1, i - 1, sep);
          }
        }
        Some(k + 1)
  }

  /** PHP's `explode(sep, s)`: the pieces of `s` between the occurrences of `sep`. */
  function Explode(sep: string, s: string): seq<string>
    requires sep != []
    decreases |s|
  {
    match FirstMatch(s, sep)
    case None => [s]
    case Some(k) => [s[..k]] + Explode(sep, s[k + |sep|..])
  }

  /** Every occurrence of the separator spans an ampersand at its second position. */
  lemma SeparatorNeedsAmpersand(s: string, i: int)
    requires MatchAt(s, i, Separator)
    ensures s[i + 1] == '&' && s[i] == ' '
  {
    assert s[i..i + 4][1] == '&';
    assert s[i..i + 4][0] == ' ';
  }

  /** A string that contains a separator contains `&`. */
  lemma SeparatorBringsAmpersand(s: string)
    ensures Occurs(s, Separator) ==> '&' in s
  {
    if Occurs(s, Separator) {
      var i :| 0 <= i <= |s| && MatchAt(s, i, Separator);
      SeparatorNeedsAmpersand(s, i);
      assert s[i + 1] in s;
    }
  }

  /** A separator starting inside `part`, in `part + Separator + rest`, brings an `&` into `part`. */
  lemma SeparatorInsidePart(part: string, rest: string)
    ensures (exists i :: 0 <= i < |part| && MatchAt(part + Separator + rest, i, Separator))
            ==> '&' in part
  {
    var s := part + Separator + rest;
    if exists i :: 0 <= i < |part| && MatchAt(s, i, Separator) {
      var i :| 0 <= i < |part| && MatchAt(s, i, Separator);
      SeparatorNeedsAmpersand(s, i);
      assert s[|part|] == ' ';
      assert i + 1 < |part|;
      assert s[i + 1] == part[i + 1];
      assert part[i + 1] in part;
    }
  }

  /** In `part + Separator + rest` with no `&` in `part`, the first separator is the one after `part`. */
  lemma FirstSeparatorAfterPart(part: string, rest: string)
    requires '&' !in part
    ensures FirstMatch(part + Separator + rest, Separator) == Some(|part|)
  {
    var s := part + Separator + rest;
    assert s[|part|..|part| + 4] == Separator;
    assert MatchAt(s, |part|, Separator);
    SeparatorInsidePart(part, rest);
    var r := FirstMatch(s, Separator);
    assert r.Some?;
    assert !(r.value < |part|);
    assert !(r.value > |part|);
  }

  /**
   * `explode` undoes `implode` when no part contains `&`: splitting the
   * joined string at the separator gives back the parts, in order.
   */
  lemma {:induction false} ExplodeImplode(parts: seq<string>)
    requires |parts| > 0
    requires forall i :: 0 <= i < |parts| ==> '&' !in parts[i]
    ensures Explode(Separator, Implode(Separator, parts)) == parts
    decreases |parts|
  {
    if |parts| == 1 {
      SeparatorBringsAmpersand(parts[0]);
      assert FirstMatch(parts[0], Separator) == None;
    } else {
      var rest := Implode(Separator, parts[1..]);
      var s := parts[0] + Separator + rest;
      assert Implode(Separator, parts) == s;
      FirstSeparatorAfterPart(parts[0], rest);
      assert s[..|parts[0]|] == parts[0];
      assert s[|parts[0]| + |Separator|..] == rest;
      assert Explode(Separator, s) == [parts[0]] + Explode(Separator, rest);
      ExplodeImplode(parts[1..]);
      assert parts == [parts[0]] + parts[1..];
    }
  }

  /** Joining two non-empty lists is joining each and putting one separator between. */
  lemma {:induction false} ImplodeAppend(glue: string, a: seq<string>, b: seq<string>)
    requires |a| > 0 && |b| > 0
    ensures Implode(glue, a + b) == Implode(glue, a) + glue + Implode(glue, b)
    decreases |a|
  {
    if |a| == 1 {
      assert (a + b)[1..] == b;
    } else {
      ImplodeAppend(glue, a[1..], b);
      assert (a + b)[1..] == a[1..] + b;
    }
  }

  /**
   * When neither the sub-directory nor the version contains `&`, splitting
   * the command line at `" && "` gives back exactly the six steps, in order.
   */
  lemma ComposeSplitsIntoSteps(wpdirectory: string, wpversion: string)
    requires '&' !in wpdirectory && '&' !in wpversion
    ensures Explode(Separator, Compose(wpdirectory, wpversion)) == Steps(wpdirectory, wpversion)
    ensures |Steps(wpdirectory, wpversion)| == 6
  {
    var steps := Steps(wpdirectory, wpversion);
    forall i | 0 <= i < 6 ensures '&' !in steps[i] {
      if i == 1 {
        assert '&' !in "git submodule --quiet add " + Remote + " ";
      } else if i == 4 {
        assert '&' !in "git checkout " && '&' !in " -q";
      } else if i == 5 {
        assert '&' !in "echo Current WordPress version is: ";
      }
    }
    ExplodeImplode(steps);
  }

  /**
   * The command starts with `git init -q`, and cutting it after any step
   * leaves the earlier steps joined on the left and the later ones on the
   * right, one separator between.
   */
  lemma ComposeOrder(wpdirectory: string, wpversion: string, k: nat)
    requires 0 < k < 6
    ensures var steps := Steps(wpdirectory, wpversion);
            Compose(wpdirectory, wpversion)
            == Implode(Separator, steps[..k]) + Separator + Implode(Separator, steps[k..])
  {
    var steps := Steps(wpdirectory, wpversion);
    ImplodeAppend(Separator, steps[..k], steps[k..]);
    assert steps[..k] + steps[k..] == steps;
  }
}
