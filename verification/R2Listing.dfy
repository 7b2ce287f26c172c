/** The text of a directory object: one `name mode` line per child. */
module R2Listing {

  type Entries = map<string, string>

  /** White space as Go's `unicode.IsSpace` has it. */
  predicate Space(c: char) {
    || '\t' <= c <= '\r' || c == ' ' || c == '\U{0085}' || c == '\U{00A0}' || c == '\U{1680}'
    || '\U{2000}' <= c <= '\U{200A}' || c == '\U{2028}' || c == '\U{2029}' || c == '\U{202F}'
    || c == '\U{205F}' || c == '\U{3000}'
  }

  /** A non-empty string without white space. */
  predicate Word(s: string) {
    s != "" && forall i :: 0 <= i < |s| ==> !Space(s[i])
  }

  predicate Clean(m: Entries) {
    forall n :: n in m ==> Word(n) && Word(m[n])
  }

  // ----------------------------------------------------------------------- splitting

  function TrimLeft(s: string): string {
    if s != "" && Space(s[0]) then TrimLeft(s[1..]) else s
  }

  function TrimRight(s: string): string {
    if s != "" && Space(s[|s| - 1]) then TrimRight(s[..|s| - 1]) else s
  }

  function Trim(s: string): string { TrimRight(TrimLeft(s)) }

  /** Where the first `\n` is, or the length. */
  function LineEnd(s: string): (n: nat)
    ensures n <= |s| && (forall i :: 0 <= i < n ==> s[i] != '\n') && (n < |s| ==> s[n] == '\n')
  {
    if s == "" || s[0] == '\n' then 0 else 1 + LineEnd(s[1..])
  }

  function Lines(s: string): seq<string>
    decreases |s|
  {
    var n := LineEnd(s);
    if n == |s| then [s] else [s[..n]] + Lines(s[n + 1..])
  }

  /** The length of the leading run without white space. */
  function WordEnd(s: string): (n: nat)
    ensures n <= |s| && (forall i :: 0 <= i < n ==> !Space(s[i])) && (n < |s| ==> Space(s[n]))
  {
    if s == "" || Space(s[0]) then 0 else 1 + WordEnd(s[1..])
  }

  function Fields(s: string): (fs: seq<string>)
    ensures forall i :: 0 <= i < |fs| ==> Word(fs[i])
    decreases |s|
  {
    if s == "" then []
    else if Space(s[0]) then Fields(s[1..])
    else [s[..WordEnd(s)]] + Fields(s[WordEnd(s)..])
  }

  // ------------------------------------------------------------------------ parsing

  function AddLine(m: Entries, line: string): Entries {
    var parts := Fields(Trim(line));
    if |parts| >= 2 then m[parts[0] := parts[1]] else m
  }

  function ParseLines(lines: seq<string>): (m: Entries)
    ensures Clean(m)
  {
    if lines == [] then map[] else AddLine(ParseLines(lines[..|lines| - 1]), lines[|lines| - 1])
  }

  function Parse(content: string): (m: Entries)
    ensures Clean(m)
  {
    ParseLines(Lines(Trim(content)))
  }

  lemma NoFields()
    ensures Fields("") == []
  {
  }

  method ParseDirectoryEntries(content: string) returns (entries: Entries)
    ensures entries == Parse(content)
  {
    hide Trim, Fields, Lines;
    entries := map[];
    var lines := Lines(Trim(content));
    for i := 0 to |lines|
      invariant entries == ParseLines(lines[..i])
    {
      assert lines[..i + 1][..i] == lines[..i] && lines[..i + 1][i] == lines[i];
      NoFields();
      var line := Trim(lines[i]);
      if line == "" {
        continue;
      }
      var parts := Fields(line);
      if |parts| >= 2 {
        entries := entries[parts[0] := parts[1]];
      }
    }
    assert lines[..|lines|] == lines;
  }

  // ---------------------------------------------------------------------- formatting

  /** Byte-wise order of strings. */
  predicate Less(a: string, b: string) {
    b != "" && (a == "" || a[0] < b[0] || (a[0] == b[0] && Less(a[1..], b[1..])))
  }

  predicate Ordered(names: seq<string>) {
    forall i, j :: 0 <= i < j < |names| ==> Less(names[i], names[j])
  }

  function Insert(names: seq<string>, x: string): seq<string> {
    if names == [] then [x]
    else if Less(x, names[0]) then [x] + names
    else [names[0]] + Insert(names[1..], x)
  }

  function Elements(s: seq<string>): set<string> { set x | x in s }

  /** The names in order. */
  ghost function Sorted(names: set<string>): (s: seq<string>)
  {
    if names == {} then [] else var x :| x in names; Insert(Sorted(names - {x}), x)
  }

  function Row(name: string, mode: string): string { name + " " + mode }

  function Rows(m: Entries, names: seq<string>): (rows: seq<string>)
    requires forall i :: 0 <= i < |names| ==> names[i] in m
    ensures |rows| == |names| && forall i :: 0 <= i < |rows| ==> rows[i] == Row(names[i], m[names[i]])
  {
    seq(|names|, i requires 0 <= i < |names| => Row(names[i], m[names[i]]))
  }

  /** `strings.Join(rows, "\n")`. */
  function Join(rows: seq<string>): string {
    if rows == [] then ""
    else if |rows| == 1 then rows[0]
    else rows[0] + "\n" + Join(rows[1..])
  }

  ghost function Format(m: Entries): string {
    if m == map[] then ""
    else
      SortedIsOrdered(m.Keys);
      Join(Rows(m, Sorted(m.Keys))) + "\n"
  }

  lemma {:induction false} LessTotal(a: string, b: string)
    ensures Less(a, b) || Less(b, a) || a == b
  {
    if a != "" && b != "" && a[0] == b[0] {
      LessTotal(a[1..], b[1..]);
      assert a == [a[0]] + a[1..] && b == [b[0]] + b[1..];
    }
  }

  lemma {:induction false} LessTransitive(a: string, b: string, c: string)
    requires Less(a, b) && Less(b, c)
    ensures Less(a, c)
  {
    if a != "" && a[0] == b[0] == c[0] {
      LessTransitive(a[1..], b[1..], c[1..]);
    }
  }

  lemma {:induction false} LessIrreflexive(a: string)
    ensures !Less(a, a)
  {
    if a != "" {
      LessIrreflexive(a[1..]);
    }
  }

  lemma {:induction false} InsertKeepsOrder(names: seq<string>, x: string)
    requires Ordered(names) && x !in names
    ensures Ordered(Insert(names, x)) && Elements(Insert(names, x)) == Elements(names) + {x}
  {
    if names != [] {
      if Less(x, names[0]) {
        forall j | 0 < j < |names| ensures Less(x, names[j]) {
          LessTransitive(x, names[0], names[j]);
        }
      } else {
        LessTotal(x, names[0]);
        var rest := Insert(names[1..], x);
        InsertKeepsOrder(names[1..], x);
        forall j | 0 <= j < |rest| ensures Less(names[0], rest[j]) {
          assert rest[j] in Elements(rest);
        }
      }
    }
  }

  lemma {:induction false} SortedIsOrdered(names: set<string>)
    ensures Ordered(Sorted(names)) && Elements(Sorted(names)) == names
    decreases |names|
  {
    if names != {} {
      var x :| x in names && Sorted(names) == Insert(Sorted(names - {x}), x);
      SortedIsOrdered(names - {x});
      assert x !in Elements(Sorted(names - {x}));
      InsertKeepsOrder(Sorted(names - {x}), x);
    }
  }

  /** There is one way to list a set in order. */
  lemma {:induction false} OrderIsUnique(a: seq<string>, b: seq<string>)
    requires Ordered(a) && Ordered(b) && Elements(a) == Elements(b)
    ensures a == b
  {
    assert b != [] ==> b[0] in Elements(b);
    if a != [] {
      assert a[0] in Elements(a);
      assert b != [];
      assert b[0] in Elements(a);
      HeadIsLeast(a, b[0]);
      HeadIsLeast(b, a[0]);
      if a[0] != b[0] {
        LessTransitive(a[0], b[0], a[0]);
        LessIrreflexive(a[0]);
      }
      TailElements(a);
      TailElements(b);
      OrderIsUnique(a[1..], b[1..]);
      assert a == [a[0]] + a[1..] && b == [b[0]] + b[1..];
    }
  }

  lemma HeadIsLeast(a: seq<string>, x: string)
    requires Ordered(a) && x in a
    ensures a[0] == x || Less(a[0], x)
  {
  }

  lemma TailElements(a: seq<string>)
    requires Ordered(a) && a != []
    ensures Elements(a[1..]) == Elements(a) - {a[0]}
  {
    if a[0] in a[1..] {
      LessIrreflexive(a[0]);
    }
    assert forall x :: x in a <==> x == a[0] || x in a[1..];
  }

  /** The names of a listing, taken in any order and sorted. */
  method SortedNames(entries: Entries) returns (names: seq<string>)
    ensures names == Sorted(entries.Keys)
    ensures forall i :: 0 <= i < |names| ==> names[i] in entries
  {
    hide Ordered, Sorted, Insert;
    names := [];
    var left := entries.Keys;
    NothingOrdered();
    while left != {}
      invariant left <= entries.Keys && Ordered(names) && Elements(names) == entries.Keys - left
      decreases |left|
    {
      var name :| name in left;
      assert name !in Elements(names);
      InsertKeepsOrder(names, name);
      names := Insert(names, name);
      left := left - {name};
    }
    SortedIsOrdered(entries.Keys);
    OrderIsUnique(names, Sorted(entries.Keys));
    forall i | 0 <= i < |names| ensures names[i] in entries {
      assert names[i] in Elements(names);
    }
  }

  lemma NothingOrdered()
    ensures Ordered([]) && Elements([]) == {}
  {
  }

  method FormatDirectoryEntries(entries: Entries) returns (content: string)
    ensures content == Format(entries)
  {
    hide Sorted, Join, Row;
    if |entries| == 0 {
      return "";
    }
    var names := SortedNames(entries);
    var lines: seq<string> := [];
    for i := 0 to |names|
      invariant |lines| == i && forall j :: 0 <= j < i ==> lines[j] == Row(names[j], entries[names[j]])
    {
      lines := lines + [Row(names[i], entries[names[i]])];
    }
    assert lines == Rows(entries, names);
    content := Join(lines) + "\n";
  }

  // ------------------------------------------------------------------------- the text

  /** White space is what the Unicode property of that name has. */
  lemma SpaceIs(c: char)
    ensures Space(c) <==>
      var u := c as int;
      9 <= u <= 13 || u in {32, 133, 160, 5760, 8232, 8233, 8239, 8287, 12288} || 8192 <= u <= 8202
  {
  }

  /** One name comes before another if it is the front of it or smaller where they first differ. */
  lemma {:induction false} LessIs(a: string, b: string)
    ensures Less(a, b) <==> a < b || exists k :: 0 <= k < |a| && k < |b| && a[..k] == b[..k] && a[k] < b[k]
  {
    if a != "" && b != "" && a[0] == b[0] {
      var x, y := a[1..], b[1..];
      LessIs(x, y);
      assert a == [a[0]] + x && b == [b[0]] + y;
      if k :| 0 <= k < |x| && k < |y| && x[..k] == y[..k] && x[k] < y[k] {
        assert a[..k + 1] == [a[0]] + x[..k] && b[..k + 1] == [b[0]] + y[..k] && a[k + 1] < b[k + 1];
      }
      if k :| 0 <= k < |a| && k < |b| && a[..k] == b[..k] && a[k] < b[k] {
        assert k > 0 && x[..k - 1] == a[..k][1..] && y[..k - 1] == b[..k][1..] && x[k - 1] < y[k - 1];
      }
    } else if a != "" && b != "" && a[0] < b[0] {
      assert a[..0] == b[..0];
    } else if a != "" && b != "" {
      if k :| 0 <= k < |a| && k < |b| && a[..k] == b[..k] && a[k] < b[k] {
        assert k > 0 ==> a[..k][0] == b[..k][0];
      }
    }
  }

  /** Lines end to end: a name, a blank, its mode, a line feed. */
  function Text(m: Entries, names: seq<string>): string
    requires forall i :: 0 <= i < |names| ==> names[i] in m
  {
    if names == [] then "" else names[0] + " " + m[names[0]] + "\n" + Text(m, names[1..])
  }

  /** A listing is one such line for each name, in order. */
  lemma TextIs(m: Entries) returns (names: seq<string>)
    ensures Elements(names) == m.Keys && (forall i, j :: 0 <= i < j < |names| ==> Less(names[i], names[j]))
    ensures forall i :: 0 <= i < |names| ==> names[i] in m
    ensures Format(m) == Text(m, names)
  {
    names := Sorted(m.Keys);
    SortedIsOrdered(m.Keys);
    forall i | 0 <= i < |names| ensures names[i] in m {
      assert names[i] in Elements(names);
    }
    if m == map[] {
      assert names == [] by {
        assert forall i :: 0 <= i < |names| ==> names[i] in m;
      }
    } else {
      assert names != [] by {
        var n :| n in m.Keys;
        assert n in Elements(names);
      }
      RowsAreText(m, names);
    }
  }

  lemma {:induction false} RowsAreText(m: Entries, names: seq<string>)
    requires names != [] && forall i :: 0 <= i < |names| ==> names[i] in m
    ensures Join(Rows(m, names)) + "\n" == Text(m, names)
  {
    var rows := Rows(m, names);
    if |names| == 1 {
      assert Text(m, names[1..]) == "";
    } else {
      RowsAreText(m, names[1..]);
      assert rows[1..] == Rows(m, names[1..]);
      JoinMore(rows);
      assert rows[0] + "\n" + Join(rows[1..]) + "\n" == rows[0] + "\n" + (Join(rows[1..]) + "\n");
    }
  }

  predicate Blank(s: string) { forall i :: 0 <= i < |s| ==> Space(s[i]) }

  /** A line gives the first of its words the second as mode, whatever blanks are around them and whatever
      follows. */
  lemma LineReads(m: Entries, pre: string, name: string, gap: string, mode: string, post: string)
    requires Blank(pre) && Word(name) && gap != "" && Blank(gap) && Word(mode) && (post == "" || Space(post[0]))
    ensures AddLine(m, pre + name + gap + mode + post) == m[name := mode]
  {
    hide Fields, Trim, Word, Blank, Space;
    var line, tail := pre + name + gap + mode + post, mode + post;
    FieldsOfTrim(line);
    assert line == pre + (name + (gap + tail));
    Leading(pre, name + (gap + tail));
    GapStarts(gap, tail);
    WordsOf(name, gap + tail);
    Leading(gap, tail);
    WordsOf(mode, post);
  }

  lemma GapStarts(gap: string, tail: string)
    requires gap != "" && Blank(gap)
    ensures gap + tail != "" && Space((gap + tail)[0])
  {
  }

  /** A line with fewer than two words says nothing. */
  lemma LineIgnored(m: Entries, pre: string, name: string, post: string)
    requires Blank(pre) && Blank(post) && (name == "" || Word(name))
    ensures AddLine(m, pre + name + post) == m
  {
    var line := pre + name + post;
    FieldsOfTrim(line);
    assert line == pre + (name + post);
    Leading(pre, name + post);
    assert post + "" == post;
    Leading(post, "");
    if name == "" {
      assert name + post == post;
    } else {
      WordsOf(name, post);
    }
  }

  lemma {:induction false} Leading(pre: string, s: string)
    requires Blank(pre)
    ensures Fields(pre + s) == Fields(s)
  {
    if pre == "" {
      assert pre + s == s;
    } else {
      assert (pre + s)[1..] == pre[1..] + s;
      Leading(pre[1..], s);
    }
  }

  lemma {:induction false} Trailing(s: string, c: char)
    requires Space(c)
    ensures Fields(s + [c]) == Fields(s)
    decreases |s|
  {
    var t := s + [c];
    if s == "" {
      assert t[1..] == "";
    } else if Space(s[0]) {
      assert t[1..] == s[1..] + [c];
      Trailing(s[1..], c);
    } else {
      var n := WordEnd(s);
      SameWordEnd(s, c);
      assert t[..n] == s[..n] && t[n..] == s[n..] + [c];
      Trailing(s[n..], c);
    }
  }

  lemma {:induction false} SameWordEnd(s: string, c: char)
    requires Space(c)
    ensures WordEnd(s + [c]) == WordEnd(s)
  {
    if s != "" && !Space(s[0]) {
      assert (s + [c])[1..] == s[1..] + [c];
      SameWordEnd(s[1..], c);
    }
  }

  lemma FieldsOfTrim(s: string)
    ensures Fields(Trim(s)) == Fields(s)
  {
    FieldsOfLeft(s);
    FieldsOfRight(TrimLeft(s));
  }

  lemma {:induction false} FieldsOfLeft(s: string)
    ensures Fields(TrimLeft(s)) == Fields(s)
  {
    if s != "" && Space(s[0]) {
      FieldsOfLeft(s[1..]);
    }
  }

  lemma {:induction false} FieldsOfRight(s: string)
    ensures Fields(TrimRight(s)) == Fields(s)
    decreases |s|
  {
    if s != "" && Space(s[|s| - 1]) {
      var t := s[..|s| - 1];
      FieldsOfRight(t);
      Trailing(t, s[|s| - 1]);
      assert s == t + [s[|s| - 1]];
    }
  }

  // ---------------------------------------------------------------------- round trip

  lemma {:induction false} TrimWords(s: string, t: string)
    requires s != "" && !Space(s[0]) && !Space(s[|s| - 1])
    requires forall i :: 0 <= i < |t| ==> Space(t[i])
    ensures Trim(s + t) == s
    decreases |t|
  {
    if t == "" {
      assert s + t == s;
    } else {
      assert TrimLeft(s + t) == s + t;
      assert (s + t)[..|s + t| - 1] == s + t[..|t| - 1];
      TrimWords(s, t[..|t| - 1]);
      assert TrimLeft(s + t[..|t| - 1]) == s + t[..|t| - 1];
    }
  }

  predicate OneLine(s: string) { forall i :: 0 <= i < |s| ==> s[i] != '\n' }

  lemma {:induction false} LinesOfJoin(rows: seq<string>)
    requires rows != [] && forall i :: 0 <= i < |rows| ==> OneLine(rows[i])
    ensures Lines(Join(rows)) == rows
  {
    if |rows| == 1 {
      assert Lines(rows[0]) == [rows[0]];
    } else {
      LinesOfJoin(rows[1..]);
      FirstLine(rows[0], Join(rows[1..]));
    }
  }

  lemma FirstLine(row: string, rest: string)
    requires OneLine(row)
    ensures Lines(row + "\n" + rest) == [row] + Lines(rest)
  {
    var s := row + "\n" + rest;
    assert s[|row|] == '\n';
    assert forall i :: 0 <= i < |row| ==> s[i] == row[i];
    assert LineEnd(s) == |row|;
    assert s[..|row|] == row && s[|row| + 1..] == rest;
  }

  lemma WordsOf(w: string, rest: string)
    requires Word(w) && (rest == "" || Space(rest[0]))
    ensures Fields(w + rest) == [w] + Fields(rest)
  {
    var s := w + rest;
    assert forall i :: 0 <= i < |w| ==> s[i] == w[i];
    assert rest != "" ==> s[|w|] == rest[0];
    assert !Space(s[0]) && WordEnd(s) == |w|;
    assert s[..|w|] == w && s[|w|..] == rest;
  }

  lemma RowReads(m: Entries, name: string, mode: string)
    requires Word(name) && Word(mode)
    ensures OneLine(Row(name, mode)) && AddLine(m, Row(name, mode)) == m[name := mode]
  {
    var row := Row(name, mode);
    assert row + "" == row;
    TrimWords(row, "");
    assert row == name + (" " + mode);
    WordsOf(name, " " + mode);
    assert (" " + mode)[1..] == mode && mode + "" == mode;
    WordsOf(mode, "");
  }

  lemma {:induction false} RowsRead(m: Entries, names: seq<string>, k: nat)
    requires Clean(m) && (forall i :: 0 <= i < |names| ==> names[i] in m) && k <= |names|
    ensures ParseLines(Rows(m, names)[..k]) == map n | n in names[..k] :: m[n]
  {
    hide AddLine, Row, OneLine, Word, Space, Rows;
    if k > 0 {
      var rows := Rows(m, names);
      RowsRead(m, names, k - 1);
      assert rows[..k][..k - 1] == rows[..k - 1];
      RowReads(ParseLines(rows[..k - 1]), names[k - 1], m[names[k - 1]]);
      assert forall n :: n in names[..k] <==> n in names[..k - 1] || n == names[k - 1];
    }
  }

  /** Ends of a joined text. */
  lemma {:induction false} JoinEnds(rows: seq<string>)
    requires rows != [] && forall i :: 0 <= i < |rows| ==> rows[i] != ""
    ensures Join(rows) != "" && Join(rows)[0] == rows[0][0]
    ensures var last := rows[|rows| - 1]; Join(rows)[|Join(rows)| - 1] == last[|last| - 1]
  {
    hide Join;
    if |rows| == 1 {
      JoinOne(rows[0]);
      assert rows == [rows[0]];
    } else {
      JoinEnds(rows[1..]);
      JoinMore(rows);
    }
  }

  lemma JoinOne(row: string)
    ensures Join([row]) == row
  {
  }

  lemma JoinMore(rows: seq<string>)
    requires |rows| > 1
    ensures Join(rows) == rows[0] + "\n" + Join(rows[1..])
  {
  }

  /** Every row is one line that neither starts nor ends with white space. */
  lemma RowsAreLines(m: Entries, names: seq<string>, i: nat)
    requires Clean(m) && (forall j :: 0 <= j < |names| ==> names[j] in m) && i < |names|
    ensures var row := Rows(m, names)[i];
            OneLine(row) && row != "" && !Space(row[0]) && !Space(row[|row| - 1])
  {
    RowReads(map[], names[i], m[names[i]]);
  }

  lemma TextReads(m: Entries, names: seq<string>)
    requires Clean(m) && names != [] && forall i :: 0 <= i < |names| ==> names[i] in m
    ensures Parse(Join(Rows(m, names)) + "\n") == map n | n in names :: m[n]
  {
    hide Join, Row, OneLine, Word, Lines, Trim, ParseLines, Rows, Clean;
    var rows := Rows(m, names);
    forall i | 0 <= i < |rows| ensures OneLine(rows[i]) && rows[i] != "" && !Space(rows[i][0]) && !Space(rows[i][|rows[i]| - 1]) {
      RowsAreLines(m, names, i);
    }
    JoinEnds(rows);
    TrimWords(Join(rows), "\n");
    LinesOfJoin(rows);
    RowsRead(m, names, |names|);
    assert rows[..|names|] == rows && names[..|names|] == names;
  }

  lemma CleanComesBack(m: Entries)
    requires Clean(m)
    ensures Parse(Format(m)) == m
  {
    hide Join, Rows, Clean, Sorted;
    if m == map[] {
      assert Lines("") == [""];
      assert ParseLines([""]) == AddLine(ParseLines([]), "");
    } else {
      hide Parse;
      SortedIsOrdered(m.Keys);
      var names := Sorted(m.Keys);
      assert names != [];
      forall n ensures n in names <==> n in m {
        assert n in names <==> n in Elements(names);
      }
      TextReads(m, names);
      assert m == map n | n in names :: m[n];
    }
  }

  /** A listing is read back as it was written exactly when no name and no mode is empty or has white
      space in it. */
  lemma ListingComesBack(m: Entries)
    ensures Parse(Format(m)) == m <==> Clean(m)
  {
    if Clean(m) {
      CleanComesBack(m);
    }
  }
}
