/**
 * The parts of a file path that pathlib's `Path` exposes: the final component (`name`),
 * its extension (`suffix`) and the name without the extension (`stem`).
 */
module Paths {
  import opened Wrappers
  import opened Strings

  /** The index of the last occurrence of `c` in `s`, as `str.rfind`. */
  function LastIndexOf(s: string, c: char): (r: Option<nat>)
    ensures r.Some? ==> r.value < |s| && s[r.value] == c && c !in s[r.value + 1..]
    ensures r.None? ==> c !in s
  {
    if |s| == 0 then None
    else if s[|s| - 1] == c then Some(|s| - 1)
    else
      var r := LastIndexOf(s[..|s| - 1], c);
      assert r.Some? ==> s[r.value + 1..] == s[..|s| - 1][r.value + 1..] + [s[|s| - 1]];
      assert s == s[..|s| - 1] + [s[|s| - 1]];
      r
  }

  /**
   * `Path(p).name`: the last '/'-separated component, after pathlib has dropped the
   * empty and "." components (so "report.pdf/" and "report.pdf/." are named "report.pdf").
   */
  function Name(path: string): (r: string)
    ensures '/' !in r && r != "."
    decreases |path|
  {
    match LastIndexOf(path, '/')
    case None => if path == "." then "" else path
    case Some(i) =>
      var last := path[i + 1..];
      if last == "" || last == "." then Name(path[..i]) else last
  }

  /** A path without '/' other than "." is its own name. */
  lemma NameOfComponent(c: string)
    requires '/' !in c && c != "."
    ensures Name(c) == c
  {
  }

  /** The name is the component after the last '/', when that is neither empty nor ".". */
  lemma NameAfterSlash(dir: string, c: string)
    requires '/' !in c && c != "" && c != "."
    ensures Name(dir + "/" + c) == c
  {
    var p := dir + "/" + c;
    assert p[|dir|] == '/' && p[|dir| + 1..] == c;
    assert LastIndexOf(p, '/') == Some(|dir|);
  }

  /** A trailing '/' or "/." never changes the name. */
  lemma NameIgnoresTrailingSlash(path: string)
    ensures Name(path + "/") == Name(path)
    ensures Name(path + "/.") == Name(path)
  {
    var p := path + "/";
    assert p[..|path|] == path && p[|path| + 1..] == "";
    assert LastIndexOf(p, '/') == Some(|path|);
    var q := path + "/.";
    assert q[|path|] == '/' && q[|path| + 1..] == ".";
    assert q[..|path|] == path;
    assert LastIndexOf(q, '/') == Some(|path|);
  }

  /** Where the suffix of a name starts: its last '.', unless that is the first or the last character. */
  function SuffixStart(name: string): (r: Option<nat>)
    ensures r.Some? ==> 0 < r.value < |name| - 1 && name[r.value] == '.' && '.' !in name[r.value + 1..]
  {
    match LastIndexOf(name, '.')
    case Some(i) => if 0 < i < |name| - 1 then Some(i) else None
    case None => None
  }

  /** The suffix of a name: empty, or a '.' followed by at least one character and no further '.'. */
  function SuffixOfName(n: string): (r: string)
    ensures r == "" || (|r| >= 2 && r[0] == '.' && '.' !in r[1..])
    ensures EndsWith(n, r)
  {
    match SuffixStart(n)
    case Some(i) => n[i..]
    case None => ""
  }

  /** The stem of a name: what precedes its suffix. */
  function StemOfName(n: string): (r: string)
    ensures r + SuffixOfName(n) == n
  {
    var start := SuffixStart(n);
    if start.None? then n
    else
      assert n[..start.value] + n[start.value..] == n;
      n[..start.value]
  }

  /** `Path(p).suffix`: the suffix of the name. */
  function Suffix(path: string): (r: string)
    ensures r == "" || (|r| >= 2 && r[0] == '.' && '.' !in r[1..])
    ensures EndsWith(Name(path), r)
  {
    SuffixOfName(Name(path))
  }

  /** `Path(p).stem`. */
  function Stem(path: string): (r: string)
    ensures r + Suffix(path) == Name(path)
  {
    StemOfName(Name(path))
  }

  /** A trailing '/' or "/." changes neither the suffix nor the stem. */
  lemma SuffixIgnoresTrailingSlash(path: string)
    ensures Suffix(path + "/") == Suffix(path) && Stem(path + "/") == Stem(path)
    ensures Suffix(path + "/.") == Suffix(path) && Stem(path + "/.") == Stem(path)
  {
    NameIgnoresTrailingSlash(path);
  }

  /** The lower-cased suffix, which is what extension tests compare. */
  function LowerSuffix(path: string): string {
    Lower(Suffix(path))
  }

  /** A name made of a stem, a '.', and an extension without dots splits back into the two. */
  lemma SuffixOfNameDotExt(stem: string, ext: string)
    requires |stem| > 0 && |ext| > 0 && '/' !in stem && '/' !in ext && '.' !in ext
    ensures Suffix(stem + "." + ext) == "." + ext
    ensures Stem(stem + "." + ext) == stem
  {
    var n := stem + "." + ext;
    assert '/' !in n;
    assert Name(n) == n;
    LastDotOfExt(stem, ext);
    assert SuffixStart(n) == Some(|stem|);
    assert n[|stem|..] == "." + ext;
    assert n[..|stem|] == stem;
  }

  lemma LastDotOfExt(stem: string, ext: string)
    requires '.' !in ext
    ensures LastIndexOf(stem + "." + ext, '.') == Some(|stem|)
  {
    var n := stem + "." + ext;
    assert n[|stem|] == '.';
    assert n[|stem| + 1..] == ext;
  }
}
