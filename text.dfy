/**
 * String helpers used by the crawler: an ASCII-only stand-in for `lower()`, suffix tests, the `split('#')[0]` fragment strip and the
 * tail of `os.path.split`.
 */
module Text {

  /** Lower-cases one ASCII letter and leaves every other character alone. */
  function LowerChar(c: char): char
  {
    if 'A' <= c <= 'Z' then (c as int + 32) as char else c
  }

  function Lower(s: string): (r: string)
    ensures |r| == |s|
    ensures forall i :: 0 <= i < |s| ==> r[i] == LowerChar(s[i])
  {
    seq(|s|, i requires 0 <= i < |s| => LowerChar(s[i]))
  }

  predicate EndsWith(s: string, suffix: string)
  {
    |suffix| <= |s| && s[|s| - |suffix|..] == suffix
  }

  /**
   * `link.split('#')[0]`: the link up to, and not including, its first '#'.
   * The contract pins that down: the result is a prefix of the link that holds
   * no '#', and it stops exactly at a '#' whenever the link has one.
   */
  function StripFragment(link: string): (r: string)
    ensures '#' !in r
    ensures r <= link
    ensures '#' in link ==> |r| < |link| && link[|r|] == '#'
    ensures '#' !in link ==> r == link
  {
    if link == [] then []
    else if link[0] == '#' then []
    else
      var rest := StripFragment(link[1..]);
      assert link == [link[0]] + link[1..];
      [link[0]] + rest
  }

  /**
   * `os.path.split(path)[-1]`: what follows the last '/' of the path (all of it
   * when it holds no '/').
   */
  function Basename(path: string): (r: string)
    ensures '/' !in r
    ensures |r| <= |path| && r == path[|path| - |r|..]
    ensures '/' in path ==> |r| < |path| && path[|path| - |r| - 1] == '/'
    ensures '/' !in path ==> r == path
  {
    if path == [] then []
    else if path[|path| - 1] == '/' then []
    else
      var init := path[..|path| - 1];
      var rest := Basename(init);
      assert path == init + [path[|path| - 1]];
      rest + [path[|path| - 1]]
  }

  /** Removing the fragment twice removes nothing more. */
  lemma StripFragmentIdempotent(link: string)
    ensures StripFragment(StripFragment(link)) == StripFragment(link)
  {
  }

  /** A link made of a fragment-free part, a '#' and anything after it keeps just that part. */
  lemma {:induction false} StripFragmentSplit(keep: string, fragment: string)
    requires '#' !in keep
    ensures StripFragment(keep + "#" + fragment) == keep
  {
    if keep != [] {
      assert (keep + "#" + fragment)[1..] == keep[1..] + "#" + fragment;
      StripFragmentSplit(keep[1..], fragment);
    }
  }

  /** A link with a query and a fragment keeps the query. */
  lemma StripFragmentExample()
    ensures StripFragment("x.com/a?b#top") == "x.com/a?b"
  {
    StripFragmentSplit("x.com/a?b", "top");
    assert "x.com/a?b" + "#" + "top" == "x.com/a?b#top";
  }
}
