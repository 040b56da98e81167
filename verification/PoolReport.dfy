/** A `zpool status` report as it is printed, and what the scan of `Devices` reads back from it. */
module PoolReport {
  import opened Options
  import opened Text
  import opened Devices

  /** A printed line: a pool's header, a line whose first word is `word`, or only space. */
  datatype Row =
    | Pool(pad: string, name: string, tail: string)
    | Entry(pad: string, word: string, tail: string)
    | Blank(pad: string)

  predicate Spaces(s: string) {
    forall i | 0 <= i < |s| :: s[i] in {' ', '\t', '\n', 11 as char, 12 as char, '\r'}
  }

  predicate Word(s: string) {
    s != "" && forall i | 0 <= i < |s| :: s[i] !in {' ', '\t', '\n', 11 as char, 12 as char, '\r'}
  }

  predicate Printable(row: Row) {
    match row
    case Pool(pad, name, tail) => Spaces(pad) && Spaces(tail) && Word(name)
    case Entry(pad, word, tail) =>
      Spaces(pad) && Word(word) && word != "pool:" && (tail != "" ==> Spaces(tail[..1]))
    case Blank(pad) => Spaces(pad)
  }

  function Print(row: Row): (r: string) {
    match row
    case Pool(pad, name, tail) => pad + ("pool: " + name + tail)
    case Entry(pad, word, tail) => pad + (word + tail)
    case Blank(pad) => pad
  }

  function PrintAll(rows: seq<Row>): (r: seq<string>)
    ensures |r| == |rows| && forall i | 0 <= i < |rows| :: r[i] == Print(rows[i])
  {
    seq(|rows|, i requires 0 <= i < |rows| => Print(rows[i]))
  }

  // ---- Taking the space off again ----

  lemma {:induction false} StartIsDropped(pad: string, s: string)
    requires Spaces(pad) && (s != "" ==> Word(s[..1]))
    ensures TrimStart(pad + s) == s
  {
    if pad == "" {
      assert pad + s == s;
      if s != "" { assert s[..1][0] == s[0]; }
    } else {
      assert (pad + s)[1..] == pad[1..] + s;
      StartIsDropped(pad[1..], s);
    }
  }

  lemma Unsnoc(a: string, b: string)
    requires b != ""
    ensures (a + b)[..|a| + |b| - 1] == a + b[..|b| - 1] && (a + b)[|a + b| - 1] == b[|b| - 1]
  {
  }

  lemma {:induction false} EndIsDropped(s: string, tail: string)
    requires Spaces(tail) && (s != "" ==> Word(s[|s| - 1..]))
    ensures TrimEnd(s + tail) == s
  {
    if tail == "" {
      assert s + tail == s;
      if s != "" { assert s[|s| - 1..][0] == s[|s| - 1]; }
    } else {
      Unsnoc(s, tail);
      EndIsDropped(s, tail[..|tail| - 1]);
    }
  }

  /** Trimming the end of a line leaves its first word alone. */
  lemma {:induction false} WordSurvives(word: string, tail: string)
    requires Word(word)
    ensures TrimEnd(word + tail) == word + TrimEnd(tail)
  {
    if tail == "" {
      assert word + tail == word && word + TrimEnd(tail) == word;
    } else {
      Unsnoc(word, tail);
      if IsSpace(tail[|tail| - 1]) { WordSurvives(word, tail[..|tail| - 1]); }
    }
  }

  lemma {:induction false} FirstWordIs(word: string, tail: string)
    requires Word(word) && (tail != "" ==> Spaces(tail[..1]))
    ensures FirstWord(word + tail) == word
  {
    assert (word + tail)[0] == word[0];
    assert (word + tail)[1..] == word[1..] + tail;
    if |word| == 1 {
      assert word[1..] + tail == tail;
      if tail != "" { assert tail[..1][0] == tail[0]; }
    } else {
      FirstWordIs(word[1..], tail);
    }
    assert word == [word[0]] + word[1..];
  }

  lemma TrimmedTail(tail: string)
    requires tail != "" ==> Spaces(tail[..1])
    ensures TrimEnd(tail) != "" ==> Spaces(TrimEnd(tail)[..1])
  {
    var b := TrimmedEnd(tail);
    if TrimEnd(tail) != "" {
      assert TrimEnd(tail)[..1] == tail[..1];
    }
  }

  // ---- Reading one line ----

  lemma ReadsPool(pad: string, name: string, tail: string)
    requires Printable(Pool(pad, name, tail))
    ensures Header(Print(Pool(pad, name, tail))) == Some(name)
  {
    var s := "pool: " + name;
    assert s[..1] == "p" && s[|s| - 1..] == name[|name| - 1..];
    assert (s + tail)[..1] == "p";
    StartIsDropped(pad, s + tail);
    EndIsDropped(s, tail);
    assert Trim(Print(Pool(pad, name, tail))) == s;
    assert s[..6] == "pool: " && s[6..] == name;
    StartIsDropped("", name);
    EndIsDropped(name, "");
    assert "" + name == name && name + "" == name;
  }

  lemma HeaderStartsWithPool(line: string)
    ensures StartsWith(line, "pool: ") ==> FirstWord(line) == "pool:"
  {
    if StartsWith(line, "pool: ") {
      var rest := " " + line[6..];
      assert line == "pool:" + rest;
      assert rest[..1] == " ";
      FirstWordIs("pool:", rest);
    }
  }

  lemma ReadsEntry(pad: string, word: string, tail: string)
    requires Printable(Entry(pad, word, tail))
    ensures Header(Print(Entry(pad, word, tail))).None?
    ensures FirstWord(Trim(Print(Entry(pad, word, tail)))) == word
  {
    assert (word + tail)[..1] == word[..1];
    StartIsDropped(pad, word + tail);
    WordSurvives(word, tail);
    TrimmedTail(tail);
    FirstWordIs(word, TrimEnd(tail));
    HeaderStartsWithPool(word + TrimEnd(tail));
  }

  lemma ReadsBlank(pad: string)
    requires Spaces(pad)
    ensures Header(pad).None? && FirstWord(Trim(pad)) == ""
  {
    StartIsDropped(pad, "");
    assert pad + "" == pad;
  }

  // ---- Reading the report ----

  /** The pool whose section row `i` is in. */
  function Section(rows: seq<Row>, i: nat): (r: Option<string>)
    requires i <= |rows|
  {
    if i == 0 then None
    else if rows[i - 1].Pool? then Some(rows[i - 1].name)
    else Section(rows, i - 1)
  }

  /** Row `h` is the nearest header above row `i`. */
  predicate NearestAbove(rows: seq<Row>, i: nat, h: int) {
    && 0 <= h < i <= |rows| && rows[h].Pool?
    && forall k | h < k < i :: !rows[k].Pool?
  }

  lemma {:induction false} SectionIsTheNearest(rows: seq<Row>, i: nat)
    requires i <= |rows|
    ensures Section(rows, i).Some? <==> exists h :: NearestAbove(rows, i, h)
    ensures forall h | NearestAbove(rows, i, h) :: Section(rows, i) == Some(rows[h].name)
  {
    if i > 0 {
      var above: nat := i - 1;
      SectionIsTheNearest(rows, above);
      if rows[above].Pool? {
        assert NearestAbove(rows, i, above);
      } else {
        forall h ensures NearestAbove(rows, above, h) <==> NearestAbove(rows, i, h) {}
      }
    }
  }

  /** The word is one of the disk's names: its path, its bare name or an alias of it, or a partition of one
      of these. */
  ghost predicate NamesDisk(word: string, path: string, base: string, aliases: seq<string>) {
    || word == path || word == base || word in aliases
    || exists digits :: digits != "" && AllDigits(digits) && NamesPart(word, digits, path, base, aliases)
  }

  ghost predicate NamesPart(word: string, digits: string, path: string, base: string, aliases: seq<string>) {
    || word == PartitionName(path, digits) || word == PartitionName(base, digits)
    || exists k | 0 <= k < |aliases| :: word == aliases[k] + "-part" + digits
  }

  /** The disk is looked for under all its names. */
  lemma LookedForByAnyName(word: string, path: string, base: string, aliases: seq<string>)
    ensures NamesDisk(word, path, base, aliases)
       <==> || IsDeviceOrPartition(word, path) || IsDeviceOrPartition(word, base)
            || exists k | 0 <= k < |aliases| :: MatchesAlias(word, aliases[k])
  {
    MatchesExactlyThePartitions(word, path);
    MatchesExactlyThePartitions(word, base);
    forall k | 0 <= k < |aliases| { MatchesAliasIff(word, aliases[k]); }
    if IsDeviceOrPartition(word, path) && word != path {
      var digits :| digits != "" && AllDigits(digits) && word == PartitionName(path, digits);
      assert NamesPart(word, digits, path, base, aliases);
    }
    if IsDeviceOrPartition(word, base) && word != base {
      var digits :| digits != "" && AllDigits(digits) && word == PartitionName(base, digits);
      assert NamesPart(word, digits, path, base, aliases);
    }
    if k :| 0 <= k < |aliases| && MatchesAlias(word, aliases[k]) && word != aliases[k] {
      var digits :| digits != "" && AllDigits(digits) && word == aliases[k] + "-part" + digits;
      assert NamesPart(word, digits, path, base, aliases);
    }
    if word in aliases {
      var k :| 0 <= k < |aliases| && aliases[k] == word;
      assert MatchesAlias(word, aliases[k]);
    }
  }

  lemma HeadersAreRead(row: Row)
    requires Printable(row)
    ensures Header(Print(row)) == if row.Pool? then Some(row.name) else None
  {
    match row
    case Pool(pad, name, tail) => ReadsPool(pad, name, tail);
    case Entry(pad, word, tail) => ReadsEntry(pad, word, tail);
    case Blank(pad) => ReadsBlank(pad);
  }

  ghost predicate HasHeader(line: string, row: Row) {
    Header(line) == if row.Pool? then Some(row.name) else None
  }

  lemma {:induction false} SectionsFollowHeaders(lines: seq<string>, rows: seq<Row>, i: nat)
    requires i <= |rows| == |lines| && forall j | 0 <= j < |rows| :: HasHeader(lines[j], rows[j])
    ensures PoolAt(lines, i) == Section(rows, i)
  {
    if i > 0 {
      SectionsFollowHeaders(lines, rows, i - 1);
      assert HasHeader(lines[i - 1], rows[i - 1]);
    }
  }

  lemma SectionsAreRead(rows: seq<Row>, i: nat)
    requires i <= |rows| && forall j | 0 <= j < |rows| :: Printable(rows[j])
    ensures PoolAt(PrintAll(rows), i) == Section(rows, i)
  {
    var lines := PrintAll(rows);
    forall j | 0 <= j < |rows| ensures HasHeader(lines[j], rows[j]) { HeadersAreRead(rows[j]); }
    SectionsFollowHeaders(lines, rows, i);
  }

  /** In a printed report a row counts as a hit exactly when it stands in some pool's section and its first
      word is a name of the disk or of one of its partitions; the pool reported is that section's. */
  lemma ReportIsReadBack(rows: seq<Row>, i: nat, path: string, base: string, aliases: seq<string>)
    requires i < |rows| && forall j | 0 <= j < |rows| :: Printable(rows[j])
    ensures Hit(PrintAll(rows), i, path, base, aliases)
       <==> rows[i].Entry? && NamesDisk(rows[i].word, path, base, aliases) && Section(rows, i).Some?
    ensures PoolAt(PrintAll(rows), i) == Section(rows, i)
    ensures Section(rows, i).Some? <==> exists h :: NearestAbove(rows, i, h)
    ensures forall h | NearestAbove(rows, i, h) :: Section(rows, i) == Some(rows[h].name)
  {
    SectionsAreRead(rows, i);
    SectionIsTheNearest(rows, i);
    match rows[i]
    case Pool(pad, name, tail) => ReadsPool(pad, name, tail);
    case Entry(pad, word, tail) =>
      ReadsEntry(pad, word, tail);
      LookedForByAnyName(word, path, base, aliases);
    case Blank(pad) => ReadsBlank(pad);
  }
}
