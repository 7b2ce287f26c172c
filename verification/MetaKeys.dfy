/** The keys under which the metadata cache keeps its entries: the name of a path, with a suffix for
    `Lstat` and for listings. */
module MetaKeys {
  import opened Paths

  datatype Kind = Stat | Lstat | List

  function Suffix(k: Kind): string {
    match k
    case Stat => ""
    case Lstat => ":lstat"
    case List => ":readdir"
  }

  predicate EndsWith(s: string, t: string) { |t| <= |s| && s[|s| - |t|..] == t }

  /** A name that no suffix ends. */
  predicate CleanName(n: Name) { GoodName(n) && !EndsWith(n, ":lstat") && !EndsWith(n, ":readdir") }

  predicate Clean(p: Path) { forall i :: 0 <= i < |p| ==> CleanName(p[i]) }

  function Normalize(s: string): string {
    var t := if s != "" && s[0] == '/' then s[1..] else s;
    if t == "" then "." else t
  }

  /** `filepath.Dir` of a name that is already clean. */
  function DirName(s: string): string { if LastSlash(s) == -1 then "." else s[..LastSlash(s)] }

  function KeyOf(p: Path, k: Kind): string { Text(p) + Suffix(k) }

  /** The root is its own parent here. */
  function Up(p: Path): Path { if p == [] then [] else Parent(p) }

  lemma CleanIsGood(p: Path)
    requires Clean(p)
    ensures Good(p)
  {
  }

  lemma NameOf(p: Path)
    requires Clean(p)
    ensures Normalize(Text(p)) == Text(p) && (Text(p) == "." <==> p == [])
  {
    if p != [] { TextEnds(p); }
  }

  lemma {:induction false} NoSlash(n: string)
    requires forall i :: 0 <= i < |n| ==> n[i] != '/'
    ensures LastSlash(n) == -1
  {
    if n != "" { NoSlash(n[..|n| - 1]); }
  }

  lemma DirIsUp(p: Path)
    requires Clean(p)
    ensures DirName(Text(p)) == Text(Up(p)) && Clean(Up(p))
  {
    if p == [] {
      NoSlash(".");
    } else if |p| == 1 {
      NoSlash(p[0]);
    } else {
      LastSlashIs(Text(Parent(p)), Base(p));
      assert (Text(Parent(p)) + "/" + Base(p))[..|Text(Parent(p))|] == Text(Parent(p));
    }
  }

  /** What ends a name without slashes ends its last component. */
  lemma EndsInBase(up: string, n: Name, t: string)
    requires EndsWith(up + "/" + n, t) && forall i :: 0 <= i < |t| ==> t[i] != '/'
    ensures EndsWith(n, t)
  {
    var s := up + "/" + n;
    assert s[|up|] == '/' && forall i :: |s| - |t| <= i < |s| ==> s[i] == t[i - (|s| - |t|)];
    assert s[|s| - |n|..] == n;
    assert n[|n| - |t|..] == s[|s| - |t|..];
  }

  lemma NoSuffix(p: Path, k: Kind)
    requires Clean(p) && k != Stat
    ensures !EndsWith(Text(p), Suffix(k))
  {
    if |p| > 1 && EndsWith(Text(p), Suffix(k)) {
      EndsInBase(Text(Parent(p)), Base(p), Suffix(k));
    }
  }

  lemma Ends(s: string, t: string)
    ensures EndsWith(s + t, t) && (s + t)[..|s|] == s && (t == "" ==> s + t == s)
  {
    assert (s + t)[|s|..] == t;
  }

  /** Two paths and kinds with one key are the same. */
  lemma OneKey(p: Path, j: Kind, q: Path, k: Kind)
    requires Clean(p) && Clean(q) && KeyOf(p, j) == KeyOf(q, k)
    ensures p == q && j == k
  {
    hide Clean, CleanName, GoodName, LastSlash;
    var s := KeyOf(p, j);
    Ends(Text(p), Suffix(j));
    Ends(Text(q), Suffix(k));
    if k != Stat { NoSuffix(p, k); }
    if j != Stat { NoSuffix(q, j); }
    assert j == Lstat ==> s[|s| - 1] == 't';
    assert j == List ==> s[|s| - 1] == 'r';
    assert k == Lstat ==> s[|s| - 1] == 't';
    assert k == List ==> s[|s| - 1] == 'r';
    assert Text(p) == s[..|s| - |Suffix(j)|] == Text(q);
    SameText(p, q);
  }

  lemma SameText(p: Path, q: Path)
    requires Clean(p) && Clean(q) && Text(p) == Text(q)
    ensures p == q
  {
    CleanIsGood(p);
    CleanIsGood(q);
    if p != [] { TextEnds(p); }
    if q != [] { TextEnds(q); }
    if p != [] && q != [] {
      TextIsInjective(p, q);
    }
  }

  /** The keys that start with a directory's name and a slash are those of the paths below it. */
  lemma PrefixOfKey(p: Path, q: Path, k: Kind)
    requires Clean(p) && Clean(q) && p != []
    ensures Text(p) + "/" <= KeyOf(q, k) <==> Under(p, q) && q != p
  {
    CleanIsGood(p);
    CleanIsGood(q);
    PrefixIsBelow(p, q);
    hide Text, Clean, Good;
    var s := Text(p) + "/";
    if s <= KeyOf(q, k) {
      assert KeyOf(q, k)[|Text(p)|] == s[|Text(p)|] == '/';
      assert |Text(p)| < |Text(q)|;
      assert s == KeyOf(q, k)[..|s|] == Text(q)[..|s|];
    }
    if s <= Text(q) {
      assert s == Text(q)[..|s|] == KeyOf(q, k)[..|s|];
    }
  }
}
