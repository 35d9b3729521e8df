/**
 * Conversion between a page title ("New York") and the wiki path of the
 * page ("/wiki/New_York").  Both directions use a one-character string
 * pattern in a string replacement, which changes only the FIRST match;
 * the model keeps that literally.
 */
module WikiPaths {

  /** The fixed prefix of every page path. */
  const WikiPrefix: string := "/wiki/"

  /** Position of the first `c` in `s`, or `|s|` when `s` holds no `c`. */
  function FirstIndex(s: string, c: char): (i: nat)
    ensures i <= |s|
    ensures i < |s| ==> s[i] == c
    ensures forall j :: 0 <= j < i ==> s[j] != c
  {
    if s == [] then 0
    else if s[0] == c then 0
    else 1 + FirstIndex(s[1..], c)
  }

  /** The three facts above determine the first index uniquely. */
  lemma FirstIndexIs(s: string, c: char, i: nat)
    requires i <= |s|
    requires i < |s| ==> s[i] == c
    requires forall j :: 0 <= j < i ==> s[j] != c
    ensures FirstIndex(s, c) == i
  {
  }

  /**
   * `s.replace(from, to)` for one-character strings `from` and `to`:
   * only the first occurrence of `from` is replaced.
   */
  function ReplaceFirst(s: string, from: char, to: char): (r: string)
    ensures |r| == |s|
    ensures forall j :: 0 <= j < |s| ==> r[j] == if j == FirstIndex(s, from) then to else s[j]
  {
    if s == [] then []
    else if s[0] == from then [to] + s[1..]
    else [s[0]] + ReplaceFirst(s[1..], from, to)
  }

  /** `wikiPath(title)`: the prefix, then the title with its first space made an underscore. */
  function WikiPath(title: string): (p: string)
    ensures |p| == |title| + |WikiPrefix|
    ensures WikiPrefix <= p
    ensures forall j :: 0 <= j < |title| ==>
      p[|WikiPrefix| + j] == if j == FirstIndex(title, ' ') then '_' else title[j]
  {
    WikiPrefix + ReplaceFirst(title, ' ', '_')
  }

  /** What remains of a path once a leading `/wiki/` is removed (at most once). */
  function StripPrefix(path: string): (rest: string)
    ensures WikiPrefix <= path ==> path == WikiPrefix + rest
    ensures !(WikiPrefix <= path) ==> rest == path
  {
    if WikiPrefix <= path then path[|WikiPrefix|..] else path
  }

  /**
   * `wikiTitle(path)`: a leading `/wiki/` is removed when present, then the
   * first underscore becomes a space.
   */
  function WikiTitle(path: string): (t: string)
    ensures WikiPrefix <= path ==> |t| == |path| - |WikiPrefix|
    ensures !(WikiPrefix <= path) ==> |t| == |path|
    ensures forall j :: 0 <= j < |StripPrefix(path)| ==>
      t[j] == if j == FirstIndex(StripPrefix(path), '_') then ' ' else StripPrefix(path)[j]
  {
    ReplaceFirst(StripPrefix(path), '_', ' ')
  }

  /**
   * Replacing the first `a` by `b` and then the first `b` by `a` gives the
   * string back exactly when no `b` comes before the first `a`.
   */
  lemma SwapBack(s: string, a: char, b: char)
    requires a != b
    ensures ReplaceFirst(ReplaceFirst(s, a, b), b, a) == s <==> FirstIndex(s, a) <= FirstIndex(s, b)
  {
    var i, j := FirstIndex(s, a), FirstIndex(s, b);
    var u := ReplaceFirst(s, a, b);
    var v := ReplaceFirst(u, b, a);
    var m := if i <= j then i else j;
    forall k | 0 <= k < m ensures u[k] != b {
      assert u[k] == s[k];
    }
    if m < |s| {
      assert u[m] == b;
    }
    FirstIndexIs(u, b, m);
    if i <= j {
      assert forall k :: 0 <= k < |s| ==> v[k] == s[k];
      assert v == s;
    } else {
      assert v[j] == a && s[j] == b;
      assert v != s;
    }
  }

  /**
   * Title to path and back is the identity exactly when the title has no
   * underscore before its first space; in particular for every title
   * without underscores.
   */
  lemma TitlePathRoundTrip(t: string)
    ensures WikiTitle(WikiPath(t)) == t <==> FirstIndex(t, ' ') <= FirstIndex(t, '_')
    ensures '_' !in t ==> WikiTitle(WikiPath(t)) == t
  {
    var u := ReplaceFirst(t, ' ', '_');
    assert WikiPath(t) == WikiPrefix + u;
    assert StripPrefix(WikiPath(t)) == u;
    SwapBack(t, ' ', '_');
    if '_' !in t {
      assert FirstIndex(t, '_') == |t|;
    }
  }

  /**
   * Path to title and back is the identity exactly on `/wiki/` paths where
   * no space comes before the first underscore of the remainder; a path
   * without the prefix never comes back, since every path gains it.
   */
  lemma PathTitleRoundTrip(p: string)
    ensures WikiPath(WikiTitle(p)) == p <==>
      WikiPrefix <= p && FirstIndex(p[|WikiPrefix|..], '_') <= FirstIndex(p[|WikiPrefix|..], ' ')
  {
    if WikiPrefix <= p {
      var s := p[|WikiPrefix|..];
      assert p == WikiPrefix + s;
      SwapBack(s, '_', ' ');
    }
  }

  /**
   * The round trip fails for "a_b c": its path is "/wiki/a_b_c"
   * (UnderscorePath), whose title is "a b_c" (UnderscoreTitle), because the
   * first underscore is turned back, not the one that was a space.
   */
  lemma UnderscoreTitleCounterexample()
    ensures WikiTitle(WikiPath("a_b c")) != "a_b c"
  {
    TitlePathRoundTrip("a_b c");
    FirstIndexIs("a_b c", '_', 1);
    FirstIndexIs("a_b c", ' ', 3);
  }

  /** The title of "/wiki/a_b_c" is "a b_c". */
  lemma UnderscoreTitle()
    ensures WikiTitle("/wiki/a_b_c") == "a b_c"
  {
    assert "/wiki/a_b_c" == WikiPrefix + "a_b_c";
    TitleOfPrefixed("a_b_c");
    ReplaceAt("a_b_c", '_', ' ', 1);
    assert "a_b_c"[..1] + " " + "a_b_c"[2..] == "a b_c";
  }

  /** The path of "a_b c" is "/wiki/a_b_c". */
  lemma UnderscorePath()
    ensures WikiPath("a_b c") == "/wiki/a_b_c"
  {
    ReplaceAt("a_b c", ' ', '_', 3);
    assert "a_b c"[..3] + "_" + "a_b c"[4..] == "a_b_c";
  }

  /** A path without the prefix is not stripped: only its first underscore changes. */
  lemma UnprefixedPathKept()
    ensures WikiTitle("a_b_c") == "a b_c"
  {
    assert "a_b_c"[0] != WikiPrefix[0];
    ReplaceAt("a_b_c", '_', ' ', 1);
    assert "a_b_c"[..1] + " " + "a_b_c"[2..] == "a b_c";
  }

  /** A title with no space or underscore: "Paris" goes to "/wiki/Paris"... */
  lemma ParisPath()
    ensures WikiPath("Paris") == "/wiki/Paris"
  {
    ReplaceNone("Paris", ' ', '_');
    assert WikiPrefix + "Paris" == "/wiki/Paris";
  }

  /** ...and back. */
  lemma ParisTitle()
    ensures WikiTitle("/wiki/Paris") == "Paris"
  {
    assert "/wiki/Paris" == WikiPrefix + "Paris";
    TitleOfPrefixed("Paris");
    ReplaceNone("Paris", '_', ' ');
  }

  /** The bare "Paris" is not stripped and names the same title as "/wiki/Paris". */
  lemma ParisBareTitle()
    ensures WikiTitle("Paris") == "Paris"
  {
    assert "Paris"[0] != WikiPrefix[0];
    ReplaceNone("Paris", '_', ' ');
  }

  /** The title of a `/wiki/` path is its remainder with the first underscore made a space. */
  lemma TitleOfPrefixed(rest: string)
    ensures WikiTitle(WikiPrefix + rest) == ReplaceFirst(rest, '_', ' ')
  {
    assert (WikiPrefix + rest)[|WikiPrefix|..] == rest;
  }

  /** Replacing in a string whose first match is at `i`. */
  lemma ReplaceAt(s: string, from: char, to: char, i: nat)
    requires i < |s| && s[i] == from
    requires forall j :: 0 <= j < i ==> s[j] != from
    ensures ReplaceFirst(s, from, to) == s[..i] + [to] + s[i + 1..]
  {
    FirstIndexIs(s, from, i);
    var r, e := ReplaceFirst(s, from, to), s[..i] + [to] + s[i + 1..];
    assert forall k :: 0 <= k < |s| ==> r[k] == e[k];
  }

  /** Replacing in a string without a match changes nothing. */
  lemma ReplaceNone(s: string, from: char, to: char)
    requires from !in s
    ensures ReplaceFirst(s, from, to) == s
  {
    FirstIndexIs(s, from, |s|);
    var r := ReplaceFirst(s, from, to);
    assert forall k :: 0 <= k < |s| ==> r[k] == s[k];
  }
}
