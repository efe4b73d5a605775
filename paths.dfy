/**
 * POSIX path manipulation as Python's `posixpath` performs it: `join` of two
 * components, `basename` and `dirname`. Every path the pipeline builds goes
 * through these.
 */
module Paths {

  predicate NoSlash(s: string) {
    forall i :: 0 <= i < |s| ==> s[i] != '/'
  }

  predicate StartsWith(s: string, prefix: string) {
    |prefix| <= |s| && s[..|prefix|] == prefix
  }

  predicate EndsWith(s: string, suffix: string) {
    |suffix| <= |s| && s[|s| - |suffix|..] == suffix
  }

  /** A path segment the pipeline may place between two slashes. */
  predicate Segment(s: string) {
    s != "" && NoSlash(s)
  }

  /** A non-empty directory path that `join` extends with a separator. */
  predicate OpenDir(s: string) {
    s != "" && s[|s| - 1] != '/'
  }

  /**
   * `os.path.join(a, b)`: an absolute `b` replaces `a`; otherwise a slash is
   * inserted unless `a` is empty or already ends with one.
   */
  function Join(a: string, b: string): (r: string)
    ensures EndsWith(r, b)
    ensures !StartsWith(b, "/") ==> StartsWith(r, a)
    ensures OpenDir(a) && !StartsWith(b, "/") ==> r == a + "/" + b
  {
    if |b| > 0 && b[0] == '/' then b
    else if a == "" || a[|a| - 1] == '/' then a + b
    else a + "/" + b
  }

  /** `os.path.basename(p)`: everything after the last slash. */
  function Basename(p: string): (r: string)
    ensures NoSlash(r)
    ensures EndsWith(p, r)
    ensures |r| < |p| ==> p[|p| - |r| - 1] == '/'
    decreases |p|
  {
    if p == [] || p[|p| - 1] == '/' then []
    else Basename(p[..|p| - 1]) + [p[|p| - 1]]
  }

  predicate AllSlashes(s: string) {
    forall i :: 0 <= i < |s| ==> s[i] == '/'
  }

  /** `str.rstrip('/')` */
  function RStripSlashes(s: string): (r: string)
    ensures StartsWith(s, r)
    ensures r == "" || r[|r| - 1] != '/'
    ensures AllSlashes(s[|r|..])
    decreases |s|
  {
    if s != [] && s[|s| - 1] == '/' then RStripSlashes(s[..|s| - 1]) else s
  }

  /**
   * `os.path.dirname(p)`: the head up to the last slash, with its trailing
   * slashes removed unless the head consists of slashes only.
   */
  function Dirname(p: string): (r: string)
    ensures StartsWith(p, r)
  {
    var head := p[..|p| - |Basename(p)|];
    if head != "" && !AllSlashes(head) then RStripSlashes(head) else head
  }

  lemma {:induction false} BasenameAppend(x: string, y: string)
    requires NoSlash(y)
    ensures Basename(x + y) == Basename(x) + y
    decreases |y|
  {
    if y == [] {
      assert x + y == x;
    } else {
      var y', last := y[..|y| - 1], y[|y| - 1];
      assert NoSlash(y') by {
        forall i | 0 <= i < |y'| ensures y'[i] != '/' { assert y'[i] == y[i]; }
      }
      var bxy' := Basename(x + y');
      assert Basename(x + y) == bxy' + [last] by {
        assert x + y == (x + y') + [last];
        BasenameSnoc(x + y', last);
      }
      assert bxy' == Basename(x) + y' by {
        BasenameAppend(x, y');
      }
      assert (Basename(x) + y') + [last] == Basename(x) + y by {
        assert y' + [last] == y;
      }
    }
  }

  /** A non-slash character extends the basename. */
  lemma BasenameSnoc(s: string, c: char)
    requires c != '/'
    ensures Basename(s + [c]) == Basename(s) + [c]
  {
    assert (s + [c])[..|s|] == s;
  }

  /** The last component of a joined path is the component joined on. */
  lemma {:induction false} BasenameOfJoin(a: string, b: string)
    requires NoSlash(b)
    ensures Basename(Join(a, b)) == b
  {
    if |b| > 0 && b[0] == '/' {
      assert false;
    } else if a == "" || a[|a| - 1] == '/' {
      assert Join(a, b) == a + b;
      assert Basename(a) == [];
      BasenameAppend(a, b);
    } else {
      assert Join(a, b) == (a + "/") + b;
      assert Basename(a + "/") == [];
      BasenameAppend(a + "/", b);
    }
  }

  /** Joining a segment onto a directory inserts exactly one separator. */
  lemma JoinSegment(a: string, b: string)
    requires OpenDir(a) && Segment(b)
    ensures Join(a, b) == a + "/" + b && OpenDir(Join(a, b))
  {
    assert !StartsWith(b, "/") by { assert b[..1][0] == b[0]; }
  }

  /** `os.path.join(base, *parts)`: the two-argument join folded from the left. */
  function JoinAll(base: string, parts: seq<string>): (r: string)
    ensures parts != [] ==> EndsWith(r, parts[|parts| - 1])
    decreases |parts|
  {
    if parts == [] then base
    else if |parts| == 1 then Join(base, parts[0])
    else JoinAll(Join(base, parts[0]), parts[1..])
  }

  /** Each part preceded by one slash. */
  function Slashed(parts: seq<string>): string
    decreases |parts|
  {
    if parts == [] then "" else "/" + parts[0] + Slashed(parts[1..])
  }

  /** Joining segments onto a directory separates them by single slashes. */
  lemma {:induction false} JoinAllSegments(base: string, parts: seq<string>)
    requires OpenDir(base)
    requires forall i :: 0 <= i < |parts| ==> Segment(parts[i])
    ensures JoinAll(base, parts) == base + Slashed(parts)
    decreases |parts|
  {
    if |parts| == 1 {
      JoinSegment(base, parts[0]);
      SlashedOne(parts);
    } else if |parts| > 1 {
      var head := parts[0];
      var next := Join(base, head);
      JoinSegment(base, head);
      JoinAllSegments(next, parts[1..]);
      RegroupSlash(base, head, Slashed(parts[1..]));
    }
  }

  lemma SlashedOne(parts: seq<string>)
    requires |parts| == 1
    ensures Slashed(parts) == "/" + parts[0]
  {
    assert Slashed(parts[1..]) == "";
  }

  lemma RegroupSlash(base: string, head: string, tail: string)
    ensures (base + "/" + head) + tail == base + ("/" + head + tail)
  {
  }

  /** A dot and a slash-free extension contain no slash. */
  lemma DotSuffix(extension: string)
    requires NoSlash(extension)
    ensures NoSlash("." + extension)
  {
    var suffix := "." + extension;
    forall i | 0 <= i < |suffix| ensures suffix[i] != '/' {
      if i > 0 { assert suffix[i] == extension[i - 1]; }
    }
  }

  lemma DotAssociates(stem: string, extension: string)
    ensures stem + "." + extension == stem + ("." + extension)
  {
  }

  /** `stem.ext` is a single segment when neither part has a slash. */
  lemma DottedName(stem: string, extension: string)
    requires NoSlash(stem) && NoSlash(extension)
    ensures Segment(stem + "." + extension)
  {
    var name := stem + "." + extension;
    forall i | 0 <= i < |name| ensures name[i] != '/' {
      if i < |stem| {
        assert name[i] == stem[i];
      } else if i > |stem| {
        assert name[i] == extension[i - |stem| - 1];
      } else {
        assert name[i] == '.';
      }
    }
  }
}
