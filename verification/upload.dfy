/** The name under which an uploaded image is stored:
    `<Date.now()>-<Math.round(Math.random() * 1e9)><path.extname(originalname)>`.
    The clock and the random draw are inputs; writing the file is not
    modelled. `Extname` follows the POSIX `path.extname` of Node.js. */
module Upload {
  import opened Base
  import opened Text

  /** An incoming file: the client's original name plus the two
      nondeterministic numbers the storage engine draws for it. */
  datatype Incoming = Incoming(originalName: string, timestamp: nat, random: nat)

  /** Index of the last `c` in `s`. */
  function LastIndexOf(s: string, c: char): (r: Option<nat>)
    ensures r.Some? ==> r.value < |s| && s[r.value] == c && c !in s[r.value + 1..]
    ensures r.None? ==> c !in s
  {
    if |s| == 0 then None
    else if s[|s| - 1] == c then Some(|s| - 1)
    else
      var r := LastIndexOf(s[..|s| - 1], c);
      assert s == s[..|s| - 1] + [s[|s| - 1]];
      r
  }

  /** The path with its trailing slashes removed. */
  function TrimTrailingSlashes(p: string): (r: string)
    ensures r <= p
    ensures r == [] || r[|r| - 1] != '/'
    ensures forall i :: |r| <= i < |p| ==> p[i] == '/'
  {
    if |p| > 0 && p[|p| - 1] == '/' then TrimTrailingSlashes(p[..|p| - 1]) else p
  }

  /** The last path segment, ignoring trailing slashes. */
  function Basename(p: string): (r: string)
    ensures '/' !in r
  {
    var t := TrimTrailingSlashes(p);
    match LastIndexOf(t, '/')
    case None => t
    case Some(i) => t[i + 1..]
  }

  /** The basename is the longest suffix of the trimmed path without a
      slash: it ends the trimmed path, and it is either all of it or
      preceded by a slash. */
  lemma BasenameIsLastSegment(p: string)
    ensures var t := TrimTrailingSlashes(p);
            var r := Basename(p);
            && |r| <= |t| && r == t[|t| - |r|..]
            && (|r| == |t| || t[|t| - |r| - 1] == '/')
  {
    var t := TrimTrailingSlashes(p);
    var r := Basename(p);
    match LastIndexOf(t, '/')
    case None =>
      assert r == t;
    case Some(i) =>
      assert r == t[i + 1..];
      SuffixFrom(t, i + 1);
  }

  /** The suffix of `t` from index `k` on ends `t` and follows `t[k - 1]`. */
  lemma SuffixFrom(t: string, k: nat)
    requires 0 < k <= |t|
    ensures var r := t[k..];
            && |t| - |r| == k && r == t[|t| - |r|..]
  {
  }

  /** The extension of a file name: from its last '.' on, except when that
      dot opens the name (a dot-file such as ".env") or the name is "..". */
  function NameExtension(b: string): string
  {
    match LastIndexOf(b, '.')
    case None => ""
    case Some(d) => if d == 0 || b == ".." then "" else b[d..]
  }

  /** `path.extname(p)`: the extension of the basename. */
  function Extname(p: string): string
  {
    NameExtension(Basename(p))
  }

  /** The extension of a name without slashes is empty or a single leading
      dot followed by characters that are neither dots nor slashes, and it
      ends the name; it is empty exactly when the name is ".." or has no
      dot after its first character. */
  lemma NameExtensionShape(b: string)
    requires '/' !in b
    ensures var e := NameExtension(b);
            && (e == "" || (e[0] == '.' && '.' !in e[1..]))
            && '/' !in e
            && EndsWith(b, e)
            && (e == "" <==> b == ".." || forall i :: 0 < i < |b| ==> b[i] != '.')
  {
    match LastIndexOf(b, '.')
    case None =>
    case Some(d) =>
      if d == 0 {
        DotFileHasNoExtension(b);
      } else if b != ".." {
        ExtensionFromLastDot(b, d);
      }
  }

  /** So the extension of a path has that shape and ends its basename. */
  lemma ExtnameShape(p: string)
    ensures var e := Extname(p);
            && (e == "" || (e[0] == '.' && '.' !in e[1..]))
            && '/' !in e
            && EndsWith(Basename(p), e)
            && (e == "" <==> Basename(p) == ".." || forall i :: 0 < i < |Basename(p)| ==> Basename(p)[i] != '.')
  {
    NameExtensionShape(Basename(p));
  }

  /** A name whose only dot opens it has no dot after its first character. */
  lemma DotFileHasNoExtension(b: string)
    requires |b| > 0 && '.' !in b[1..]
    ensures forall i :: 0 < i < |b| ==> b[i] != '.'
  {
    forall i | 0 < i < |b|
      ensures b[i] != '.'
    {
      assert b[i] == b[1..][i - 1];
    }
  }

  /** The part of a name from its last dot on has the shape of an
      extension and ends the name. */
  lemma ExtensionFromLastDot(b: string, d: nat)
    requires 0 < d < |b| && b[d] == '.' && '.' !in b[d + 1..] && '/' !in b
    ensures var e := b[d..];
            && e[0] == '.' && '.' !in e[1..] && '/' !in e && EndsWith(b, e)
  {
    var e := b[d..];
    assert e[1..] == b[d + 1..];
    assert forall i :: 0 <= i < |e| ==> e[i] == b[d + i];
  }

  /** In `prefix + e`, where `e` starts with its only `c`, the last `c` is
      the one that starts `e`. */
  lemma LastIndexOfAfterPrefix(prefix: string, e: string, c: char)
    requires |e| > 0 && e[0] == c && c !in e[1..]
    ensures LastIndexOf(prefix + e, c) == Some(|prefix|)
  {
    var n := prefix + e;
    assert n[|prefix|] == c;
  }

  /** The stored file name. */
  function StoredName(f: Incoming): string
  {
    Decimal(f.timestamp) + "-" + Decimal(f.random) + Extname(f.originalName)
  }

  /** A name without slashes is its own basename. */
  lemma BasenameOfPlain(n: string)
    requires '/' !in n
    ensures Basename(n) == n
  {
    assert TrimTrailingSlashes(n) == n;
  }

  /** Behind a non-empty prefix without dots or slashes, an extension-shaped
      suffix is the extension. */
  lemma ExtnameAfterPlainPrefix(prefix: string, e: string)
    requires |prefix| > 0 && '/' !in prefix && '.' !in prefix
    requires e == "" || (e[0] == '.' && '.' !in e[1..])
    requires '/' !in e
    ensures Extname(prefix + e) == e
  {
    var n := prefix + e;
    assert '/' !in n;
    BasenameOfPlain(n);
    if e == "" {
      assert n == prefix;
    } else {
      LastIndexOfAfterPrefix(prefix, e, '.');
      assert n != ".." by {
        assert n[0] == prefix[0];
        assert prefix[0] in prefix;
      }
      assert n[|prefix|..] == e;
    }
  }

  /** Two digit strings joined by a dash hold no dot and no slash. */
  lemma DigitsDashDigitsPlain(t: string, r: string)
    requires forall i :: 0 <= i < |t| ==> IsDigit(t[i])
    requires forall i :: 0 <= i < |r| ==> IsDigit(r[i])
    ensures '/' !in t + "-" + r && '.' !in t + "-" + r
  {
    var prefix := t + "-" + r;
    forall i | 0 <= i < |prefix|
      ensures prefix[i] != '/' && prefix[i] != '.'
    {
      if i < |t| {
        assert prefix[i] == t[i];
      } else if i > |t| {
        assert prefix[i] == r[i - |t| - 1];
      }
    }
  }

  /** The stored name keeps the original extension: it ends with it, and
      taking its extension again gives it back. */
  lemma StoredNameKeepsExtension(f: Incoming)
    ensures EndsWith(StoredName(f), Extname(f.originalName))
    ensures Extname(StoredName(f)) == Extname(f.originalName)
  {
    var e := Extname(f.originalName);
    ExtnameShape(f.originalName);
    var prefix := Decimal(f.timestamp) + "-" + Decimal(f.random);
    DigitsDashDigitsPlain(Decimal(f.timestamp), Decimal(f.random));
    ExtnameAfterPlainPrefix(prefix, e);
    assert StoredName(f) == prefix + e;
    assert (prefix + e)[|prefix|..] == e;
  }

  /** The stored name is a plain file name: whatever the client calls its
      file, the name holds no slash and so stays inside the uploads
      directory. */
  lemma StoredNameIsPlain(f: Incoming)
    ensures '/' !in StoredName(f)
  {
    var prefix := Decimal(f.timestamp) + "-" + Decimal(f.random);
    DigitsDashDigitsPlain(Decimal(f.timestamp), Decimal(f.random));
    ExtnameShape(f.originalName);
    assert StoredName(f) == prefix + Extname(f.originalName);
  }

  /** In `a + "-" + x == b + "-" + y` with `a` the shorter prefix, `b` has
      a dash where `a` ends. */
  lemma DashAfterPrefix(a: string, x: string, b: string, y: string)
    requires a + "-" + x == b + "-" + y
    ensures |a| < |b| ==> b[|a|] == '-'
  {
    var n := a + "-" + x;
    assert n[|a|] == '-';
  }

  /** A string of digits followed by '-' can be split at that dash in only
      one way. */
  lemma SplitAtDash(a: string, x: string, b: string, y: string)
    requires forall i :: 0 <= i < |a| ==> IsDigit(a[i])
    requires forall i :: 0 <= i < |b| ==> IsDigit(b[i])
    requires a + "-" + x == b + "-" + y
    ensures a == b && x == y
  {
    var n := a + "-" + x;
    DashAfterPrefix(a, x, b, y);
    DashAfterPrefix(b, y, a, x);
    assert |a| == |b|;
    assert a == n[..|a|] == b;
    assert x == n[|a| + 1..] == y;
  }

  /** Equal strings with a common suffix are equal without it. */
  lemma DropSuffix(a: string, b: string, e: string)
    requires a + e == b + e
    ensures a == b
  {
    assert a == (a + e)[..|a|];
    assert b == (b + e)[..|b|];
  }

  /** A name of the form digits, '-', text, suffix determines the digits
      and the text, given the suffix. */
  lemma SplitName(ta: string, ra: string, tb: string, rb: string, e: string)
    requires forall i :: 0 <= i < |ta| ==> IsDigit(ta[i])
    requires forall i :: 0 <= i < |tb| ==> IsDigit(tb[i])
    requires ta + "-" + ra + e == tb + "-" + rb + e
    ensures ta == tb && ra == rb
  {
    assert ta + "-" + ra + e == ta + "-" + (ra + e);
    assert tb + "-" + rb + e == tb + "-" + (rb + e);
    SplitAtDash(ta, ra + e, tb, rb + e);
    DropSuffix(ra, rb, e);
  }

  /** Two uploads of the same file get different names whenever their clock
      readings or random draws differ. */
  lemma StoredNamesDiffer(f: Incoming, g: Incoming)
    requires f.originalName == g.originalName
    requires StoredName(f) == StoredName(g)
    ensures f.timestamp == g.timestamp && f.random == g.random
  {
    SplitName(Decimal(f.timestamp), Decimal(f.random), Decimal(g.timestamp), Decimal(g.random),
              Extname(f.originalName));
    DecimalInjective(f.timestamp, g.timestamp);
    DecimalInjective(f.random, g.random);
  }
}
