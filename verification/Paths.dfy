/** Paths as the file system names them, and what `dirpath`, `basename` and the composing of a child's
    path make of them. */
module Paths {
  type Name = string
  /** The components below the root; the root has none. */
  type Path = seq<string>

  /** A component that path cleaning and key making leave alone. */
  predicate GoodName(n: Name) {
    n != "" && n != "." && n != ".." && forall i :: 0 <= i < |n| ==> n[i] != '/' && n[i] != '\\'
  }

  predicate Good(p: Path) { forall i :: 0 <= i < |p| ==> GoodName(p[i]) }

  /** The name of a path: `.` for the root, components joined with `/` otherwise. */
  function Text(p: Path): string {
    if p == [] then "." else if |p| == 1 then p[0] else Text(p[..|p| - 1]) + "/" + p[|p| - 1]
  }

  function Parent(p: Path): Path requires p != [] { p[..|p| - 1] }
  function Base(p: Path): Name requires p != [] { p[|p| - 1] }

  /** `k` is `p` or below it. */
  predicate Under(p: Path, k: Path) { p <= k }

  lemma Splits(p: Path)
    requires p != []
    ensures p == Parent(p) + [Base(p)]
  {
  }

  lemma UnderChild(p: Path, e: Name, k: Path)
    ensures Under(p + [e], k) <==> Under(p, k) && |k| > |p| && k[|p|] == e
  {
    assert Under(p, k) && |k| > |p| && k[|p|] == e ==> p + [e] == k[..|p| + 1];
  }

  lemma Prefixes(p: Path, q: Path, k: Path)
    requires Under(p, k) && Under(q, k)
    ensures Under(p, q) || Under(q, p)
  {
    if |p| <= |q| {
      assert p == k[..|p|] == q[..|p|];
    } else {
      assert q == k[..|q|] == p[..|q|];
    }
  }

  lemma Outside(p: Path, d: Path, n: Name)
    requires p != [] && !Under(p, d)
    ensures Under(p, d + [n]) <==> p == d + [n]
    ensures p == d + [n] <==> d == Parent(p) && n == Base(p)
  {
    assert (d + [n])[..|d|] == d && p == Parent(p) + [Base(p)];
  }

  // ------------------------------------------------------------------- the string functions

  /** `name + "/" + entryName`, except below the root. */
  function Child(name: string, entry: string): string {
    if name == "." then entry else name + "/" + entry
  }

  function TrimSlash(s: string): string {
    if s != "" && s[|s| - 1] == '/' then s[..|s| - 1] else s
  }

  /** `strings.LastIndex(s, "/")`. */
  function LastSlash(s: string): (r: int)
    ensures -1 <= r < |s|
  {
    if s == "" then -1 else if s[|s| - 1] == '/' then |s| - 1 else LastSlash(s[..|s| - 1])
  }

  function FromRoot(path: string): string {
    if path != "" && path[0] == '/' then path else "/" + path
  }

  function Basename(path: string): string {
    if path == "." || path == "" then "."
    else if FromRoot(path) == "/" then "."
    else
      var s := TrimSlash(FromRoot(path));
      if LastSlash(s) == -1 then s else s[LastSlash(s) + 1..]
  }

  function Dirpath(path: string): string {
    if path == "." || path == "" then "."
    else
      var s := TrimSlash(FromRoot(path));
      var n := LastSlash(s);
      if n <= 0 then "."
      else if s[..n] == "/" then "."
      else s[..n][1..]
  }

  /** The key of an object, in a bucket without a base path, of a name that is already clean. */
  function Key(path: string): string {
    if path == "." || path == "" then "/" else FromRoot(path)
  }

  // ------------------------------------------------------------------------------ facts

  lemma {:induction false} TextEnds(p: Path)
    requires Good(p) && p != []
    ensures Text(p) != "" && Text(p) != "." && Text(p)[0] != '/' && Text(p)[|Text(p)| - 1] != '/'
  {
    if |p| > 1 {
      TextEnds(p[..|p| - 1]);
    }
  }

  lemma {:induction false} LastSlashIs(s: string, t: string)
    requires forall i :: 0 <= i < |t| ==> t[i] != '/'
    ensures LastSlash(s + "/" + t) == |s|
    decreases |t|
  {
    if t == "" {
      assert (s + "/" + t)[|s|] == '/';
    } else {
      assert (s + "/" + t)[..|s| + |t|] == s + "/" + t[..|t| - 1];
      LastSlashIs(s, t[..|t| - 1]);
    }
  }

  /** The string functions take the last component off, at every depth. */
  lemma NamesSplit(p: Path, n: Name)
    requires Good(p) && GoodName(n)
    ensures Child(Text(p), n) == Text(p + [n])
    ensures Dirpath(Text(p + [n])) == Text(p) && Basename(Text(p + [n])) == n
  {
    assert (p + [n])[..|p|] == p;
    if p == [] {
      LastSlashIs("", n);
      assert "" + "/" + n == "/" + n;
      assert ("/" + n)[1..] == n;
    } else {
      TextEnds(p);
      hide Text;
      TwoParts(Text(p), n);
    }
  }

  lemma TwoParts(dir: string, n: Name)
    requires GoodName(n) && dir != "" && dir[0] != '/'
    ensures Dirpath(dir + "/" + n) == dir && Basename(dir + "/" + n) == n
  {
    var path := dir + "/" + n;
    var s := "/" + dir;
    hide LastSlash;
    LastSlashIs(s, n);
    assert path[0] == dir[0] && path[|path| - 1] == n[|n| - 1];
    assert path != "." && path != "";
    assert FromRoot(path) == s + "/" + n == TrimSlash(FromRoot(path));
    assert (s + "/" + n)[|s| + 1..] == n && (s + "/" + n)[..|s|] == s && s[1..] == dir;
  }

  /** Two paths with one key are the same path. */
  lemma {:induction false} KeysDiffer(p: Path, q: Path)
    requires Good(p) && Good(q) && Key(Text(p)) == Key(Text(q))
    ensures p == q
  {
    if p != [] { TextEnds(p); }
    if q != [] { TextEnds(q); }
    if p != [] && q != [] {
      assert ("/" + Text(p))[1..] == Text(p) && ("/" + Text(q))[1..] == Text(q);
      TextIsInjective(p, q);
    }
  }

  lemma {:induction false} TextIsInjective(p: Path, q: Path)
    requires Good(p) && Good(q) && p != [] && q != [] && Text(p) == Text(q)
    ensures p == q
  {
    hide Dirpath, Basename, Child, Text, Good, GoodName;
    RootText();
    GoodParts(p);
    GoodParts(q);
    var p', q' := Parent(p), Parent(q);
    NamesSplit(p', Base(p));
    NamesSplit(q', Base(q));
    if p' != [] { TextEnds(p'); }
    if q' != [] { TextEnds(q'); }
    if p' != [] && q' != [] {
      TextIsInjective(p', q');
    }
  }

  lemma RootText()
    ensures Text([]) == "."
  {
  }

  lemma GoodParts(p: Path)
    requires Good(p) && p != []
    ensures Good(Parent(p)) && GoodName(Base(p)) && p == Parent(p) + [Base(p)]
  {
  }

  // --------------------------------------------------------- prefixes of names and of paths

  /** `strings.HasPrefix(k, p + "/")` on names says that `k` is below `p`. */
  lemma {:induction false} PrefixIsBelow(p: Path, k: Path)
    requires Good(p) && Good(k) && p != []
    ensures Text(p) + "/" <= Text(k) <==> Under(p, k) && k != p
    decreases |k|
  {
    if k == [] {
      TextEnds(p);
    } else if |k| == 1 {
      TextEnds(p);
      ShortHasNoPrefix(Text(p), k[0]);
    } else {
      var up := Parent(k);
      GoodParts(k);
      PrefixIsBelow(p, up);
      if Text(p) == Text(up) {
        TextIsInjective(p, up);
      }
      LastPart(Text(p), Text(up), Base(k));
      assert Under(p, k) && k != p <==> Under(p, up);
    }
  }

  lemma ShortHasNoPrefix(s: string, n: Name)
    requires GoodName(n)
    ensures !(s + "/" <= n)
  {
    assert (s + "/")[|s|] == '/';
  }

  /** The slashes of a joined name are those of the directory and the one between. */
  lemma SlashAt(up: string, n: Name, i: nat)
    requires GoodName(n) && i < |up + "/" + n|
    ensures (up + "/" + n)[i] == '/' ==> i <= |up|
    ensures i < |up| ==> (up + "/" + n)[i] == up[i]
  {
    if i > |up| {
      assert (up + "/" + n)[i] == n[i - |up| - 1];
    }
  }

  /** A prefix that ends in a slash ends at the last slash or before. */
  lemma LastPart(s: string, up: string, n: Name)
    requires GoodName(n)
    ensures s + "/" <= up + "/" + n <==> s == up || s + "/" <= up
  {
    var t := up + "/" + n;
    assert (up + "/")[..|up|] == up && up + "/" <= t;
    if s + "/" <= t {
      assert (s + "/")[|s|] == '/';
      SlashAt(up, n, |s|);
      assert s == t[..|s|] && s + "/" == t[..|s| + 1];
      assert |s| == |up| ==> s == up;
      assert |s| < |up| ==> t[..|s| + 1] == up[..|s| + 1];
    }
  }

  /** `newpath + TrimPrefix(p, oldpath)` on names moves a path from below `p` to below `q`. */
  lemma {:induction false} RewriteMoves(p: Path, q: Path, k: Path)
    requires Good(p) && Good(q) && Good(k) && p != [] && q != [] && Under(p, k)
    ensures Text(p) <= Text(k) && Text(q) + Text(k)[|Text(p)|..] == Text(q + k[|p|..])
    decreases |k|
  {
    hide Text, Good, GoodName;
    if k == p {
      assert q + k[|p|..] == q && Text(k)[|Text(p)|..] == "";
    } else {
      GoodParts(k);
      var up := Parent(k);
      RewriteMoves(p, q, up);
      var there := q + up[|p|..];
      assert k[|p|..] == up[|p|..] + [Base(k)];
      TextOfChild(up, Base(k));
      TextOfChild(there, Base(k));
      assert q + k[|p|..] == there + [Base(k)];
      Rewritten(Text(p), Text(q), Text(up), Base(k));
    }
  }

  lemma Rewritten(p: string, q: string, up: string, n: Name)
    requires p <= up
    ensures p <= up + "/" + n && q + (up + "/" + n)[|p|..] == q + up[|p|..] + "/" + n
  {
    assert (up + "/" + n)[|p|..] == up[|p|..] + "/" + n;
  }

  lemma TextOfChild(p: Path, n: Name)
    requires p != []
    ensures Text(p + [n]) == Text(p) + "/" + n
  {
    assert (p + [n])[..|p|] == p;
  }

  /** What is left after the prefix has no slash exactly if `k` is a child of `p`. */
  lemma {:induction false} ChildHasNoSlash(p: Path, k: Path)
    requires Good(p) && Good(k) && p != [] && Under(p, k) && k != p
    ensures Text(p) + "/" <= Text(k)
    ensures (forall i :: |Text(p)| + 1 <= i < |Text(k)| ==> Text(k)[i] != '/') <==> Parent(k) == p
  {
    PrefixIsBelow(p, k);
    GoodParts(k);
    var up := Parent(k);
    assert Under(p, up) && Text(k) == Text(up) + "/" + Base(k);
    if up == p {
      assert forall i :: |Text(p)| + 1 <= i < |Text(k)| ==> Text(k)[i] == Base(k)[i - |Text(p)| - 1];
    } else {
      PrefixIsBelow(p, up);
      assert Text(k)[|Text(up)|] == '/';
    }
  }
}
