/** How the warehouse turns rows into columns, in both forms of modules/data-warehouse/src/parquet_writer.cpp:
    the CSV text and the Arrow table; and how a CSV line is split again, as split_csv() of
    modules/news-pipeline/src/ner.cpp does. */
module Projection {
  import opened Text
  import opened Rollup

  // ----- Ordered key sets -----

  /** Byte order of strings, the order of std::set. */
  predicate Less(a: string, b: string) {
    if b == "" then false
    else if a == "" then true
    else a[0] < b[0] || (a[0] == b[0] && Less(a[1..], b[1..]))
  }

  lemma {:induction false} LessTotal(a: string, b: string)
    ensures Less(a, b) || a == b || Less(b, a)
    ensures !(Less(a, b) && Less(b, a)) && !Less(a, a)
    decreases |a|
  {
    if a != "" {
      LessTotal(a[1..], a[1..]);
      if b != "" {
        LessTotal(a[1..], b[1..]);
        assert a == [a[0]] + a[1..] && b == [b[0]] + b[1..];
      }
    }
  }

  lemma {:induction false} LessTransitive(a: string, b: string, c: string)
    requires Less(a, b) && Less(b, c)
    ensures Less(a, c)
    decreases |a|
  {
    if a != "" && a[0] == b[0] == c[0] {
      LessTransitive(a[1..], b[1..], c[1..]);
    }
  }

  /** It goes by the first byte that differs, and a proper prefix comes first. */
  lemma {:induction false} LessExactly(a: string, b: string)
    ensures Less(a, b) <==> exists i: nat :: DiffersAt(a, b, i)
    decreases |a|
  {
    if a != "" && b != "" && a[0] == b[0] {
      LessExactly(a[1..], b[1..]);
      if Less(a[1..], b[1..]) {
        var i: nat :| DiffersAt(a[1..], b[1..], i);
        DiffersLater(a, b, i, i + 1);
      }
      if j: nat :| DiffersAt(a, b, j) {
        assert j > 0;
        DiffersLater(a, b, j - 1, j);
      }
    } else {
      if j: nat :| DiffersAt(a, b, j) {
        SameFirst(a, b, j);
      }
      if Less(a, b) {
        assert DiffersAt(a, b, 0);
      }
    }
  }

  /** Equal before byte `i`; there `a` ends or is smaller. */
  predicate DiffersAt(a: string, b: string, i: nat) {
    i <= |a| && i < |b| && a[..i] == b[..i] && (i < |a| ==> a[i] < b[i])
  }

  lemma {:induction false} SameFirst(a: string, b: string, j: nat)
    requires DiffersAt(a, b, j)
    ensures j > 0 ==> a != "" && b != "" && a[0] == b[0]
  {
    if j > 0 {
      assert a[0] == a[..j][0] == b[..j][0] == b[0];
    }
  }

  lemma {:induction false} DiffersLater(a: string, b: string, i: nat, j: nat)
    requires a != "" && b != "" && a[0] == b[0] && j == i + 1
    ensures DiffersAt(a[1..], b[1..], i) <==> DiffersAt(a, b, j)
  {
    if j <= |a| && j < |b| {
      assert a[..j] == [a[0]] + a[1..][..i] && b[..j] == [b[0]] + b[1..][..i];
    }
  }

  predicate Ordered(keys: seq<string>) {
    forall i, j | 0 <= i < j < |keys| :: Less(keys[i], keys[j])
  }

  /** std::set::insert on the ordered elements. */
  function Inserted(keys: seq<string>, k: string): (r: seq<string>)
    ensures forall x :: x in r <==> x in keys || x == k
  {
    if keys == [] then [k]
    else if k == keys[0] then keys
    else if Less(k, keys[0]) then [k] + keys
    else
      var rest := Inserted(keys[1..], k);
      assert keys == [keys[0]] + keys[1..];
      [keys[0]] + rest
  }

  lemma {:induction false} OrderedCons(first: string, rest: seq<string>)
    requires Ordered(rest) && forall x | x in rest :: Less(first, x)
    ensures Ordered([first] + rest)
  {
  }

  lemma {:induction false} OrderedTail(keys: seq<string>)
    requires Ordered(keys) && keys != []
    ensures Ordered(keys[1..]) && forall x | x in keys[1..] :: Less(keys[0], x)
  {
  }

  lemma {:induction false} InsertKeepsOrder(keys: seq<string>, k: string)
    requires Ordered(keys)
    ensures Ordered(Inserted(keys, k))
  {
    if keys != [] && k != keys[0] {
      OrderedTail(keys);
      LessTotal(k, keys[0]);
      if Less(k, keys[0]) {
        forall x | x in keys
          ensures Less(k, x)
        {
          if x != keys[0] {
            assert x in keys[1..];
            LessTransitive(k, keys[0], x);
          }
        }
        OrderedCons(k, keys);
      } else {
        InsertKeepsOrder(keys[1..], k);
        OrderedCons(keys[0], Inserted(keys[1..], k));
      }
    }
  }

  /** An ordered listing is determined by what it lists. */
  lemma {:induction false} OrderedUnique(a: seq<string>, b: seq<string>)
    requires Ordered(a) && Ordered(b) && forall x :: x in a <==> x in b
    ensures a == b
  {
    if a == [] {
      if b != [] {
        FirstListed(b);
      }
    } else {
      assert a[0] in a;
      OrderedTail(a);
      OrderedTail(b);
      LessTotal(a[0], b[0]);
      assert b[0] in b;
      LessTotal(a[0], a[0]);
      forall x
        ensures x in a[1..] <==> x in b[1..]
      {
        TailMembers(a, x);
        TailMembers(b, x);
      }
      OrderedUnique(a[1..], b[1..]);
      assert a == [a[0]] + a[1..] && b == [b[0]] + b[1..];
    }
  }

  lemma {:induction false} FirstListed(keys: seq<string>)
    requires keys != []
    ensures keys[0] in keys
  {
  }

  lemma {:induction false} TailMembers(keys: seq<string>, x: string)
    requires Ordered(keys) && keys != []
    ensures x in keys[1..] <==> x in keys && x != keys[0]
  {
    assert keys == [keys[0]] + keys[1..];
    LessTotal(keys[0], keys[0]);
  }

  function AllInserted<T>(keys: seq<string>, pairs: seq<(string, T)>): seq<string> {
    if pairs == [] then keys
    else Inserted(AllInserted(keys, pairs[..|pairs| - 1]), pairs[|pairs| - 1].0)
  }

  function TagKeys(rows: seq<Row>): seq<string> {
    if rows == [] then [] else AllInserted(TagKeys(rows[..|rows| - 1]), rows[|rows| - 1].tags)
  }

  function ValueKeys(rows: seq<Row>): seq<string> {
    if rows == [] then [] else AllInserted(ValueKeys(rows[..|rows| - 1]), rows[|rows| - 1].values)
  }

  predicate HasKey<T>(pairs: seq<(string, T)>, k: string) {
    exists i :: 0 <= i < |pairs| && pairs[i].0 == k
  }

  lemma {:induction false} AllInsertedKeys<T>(keys: seq<string>, pairs: seq<(string, T)>)
    requires Ordered(keys)
    ensures Ordered(AllInserted(keys, pairs))
    ensures forall k :: k in AllInserted(keys, pairs) <==> k in keys || HasKey(pairs, k)
  {
    if pairs != [] {
      var before, p := pairs[..|pairs| - 1], pairs[|pairs| - 1];
      AllInsertedKeys(keys, before);
      InsertKeepsOrder(AllInserted(keys, before), p.0);
      forall k
        ensures HasKey(pairs, k) <==> HasKey(before, k) || k == p.0
      {
        if HasKey(before, k) {
          var i :| 0 <= i < |before| && before[i].0 == k;
          assert pairs[i].0 == k;
        }
        if HasKey(pairs, k) {
          var i :| 0 <= i < |pairs| && pairs[i].0 == k;
          assert i < |before| ==> before[i].0 == k;
        }
      }
    }
  }

  /** The columns are the keys some row has, in byte order. */
  lemma {:induction false} KeysExactly(rows: seq<Row>)
    ensures Ordered(TagKeys(rows)) && Ordered(ValueKeys(rows))
    ensures forall k :: k in TagKeys(rows) <==> exists r | r in rows :: HasKey(r.tags, k)
    ensures forall k :: k in ValueKeys(rows) <==> exists r | r in rows :: HasKey(r.values, k)
  {
    if rows != [] {
      var before, r := rows[..|rows| - 1], rows[|rows| - 1];
      KeysExactly(before);
      AllInsertedKeys(TagKeys(before), r.tags);
      AllInsertedKeys(ValueKeys(before), r.values);
      assert rows == before + [r];
    }
  }

  // ----- One row as cells -----

  /** Stream formatting of the two number types. */
  datatype Format = Format(ts: int -> string, value: real -> string)

  /** The value of the first pair with the key. */
  function FirstOf<T>(pairs: seq<(string, T)>, k: string): (r: Option<T>)
    ensures r.Some? <==> HasKey(pairs, k)
    ensures r.Some? ==>
              exists i :: 0 <= i < |pairs| && pairs[i] == (k, r.value) && forall j | 0 <= j < i :: pairs[j].0 != k
  {
    if pairs == [] then None
    else if pairs[0].0 == k then
      assert pairs[0] == (k, pairs[0].1);
      Some(pairs[0].1)
    else
      var rest := FirstOf(pairs[1..], k);
      assert forall i | 0 <= i < |pairs| - 1 :: pairs[1..][i] == pairs[i + 1];
      assert HasKey(pairs[1..], k) ==> exists i | 0 <= i < |pairs| :: pairs[i].0 == k;
      rest
  }

  function TagCell(r: Row, k: string): string {
    match FirstOf(r.tags, k)
    case None => ""
    case Some(v) => v
  }

  function ValueCell(f: Format, r: Row, k: string): string {
    match FirstOf(r.values, k)
    case None => ""
    case Some(v) => f.value(v)
  }

  function TagCells(r: Row, keys: seq<string>): (cells: seq<string>)
    ensures |cells| == |keys| && forall j | 0 <= j < |keys| :: cells[j] == TagCell(r, keys[j])
  {
    seq(|keys|, j requires 0 <= j < |keys| => TagCell(r, keys[j]))
  }

  function ValueCells(f: Format, r: Row, keys: seq<string>): (cells: seq<string>)
    ensures |cells| == |keys| && forall j | 0 <= j < |keys| :: cells[j] == ValueCell(f, r, keys[j])
  {
    seq(|keys|, j requires 0 <= j < |keys| => ValueCell(f, r, keys[j]))
  }

  function Cells(f: Format, r: Row, tagKeys: seq<string>, valueKeys: seq<string>): seq<string> {
    [f.ts(r.ts), r.channel] + TagCells(r, tagKeys) + ValueCells(f, r, valueKeys)
  }

  function Prefixed(prefix: string, keys: seq<string>): (names: seq<string>)
    ensures |names| == |keys| && forall j | 0 <= j < |keys| :: names[j] == prefix + keys[j]
  {
    seq(|keys|, j requires 0 <= j < |keys| => prefix + keys[j])
  }

  function Header(tagKeys: seq<string>, valueKeys: seq<string>): seq<string> {
    ["ts_ns", "channel"] + Prefixed("tag.", tagKeys) + Prefixed("val.", valueKeys)
  }

  // ----- Separated text -----

  function Join(parts: seq<string>, sep: char): string {
    if parts == [] then ""
    else if |parts| == 1 then parts[0]
    else Join(parts[..|parts| - 1], sep) + [sep] + parts[|parts| - 1]
  }

  function Split(text: string, sep: char): (parts: seq<string>)
    ensures parts != []
  {
    if text == "" then [""]
    else
      var before, c := Split(text[..|text| - 1], sep), text[|text| - 1];
      if c == sep then before + [""] else before[..|before| - 1] + [before[|before| - 1] + [c]]
  }

  method SplitCsv(line: string) returns (out: seq<string>)
    ensures out == Split(line, ',')
  {
    out := [];
    var cur := "";
    for i := 0 to |line|
      invariant out + [cur] == Split(line[..i], ',')
    {
      assert line[..i + 1][..i] == line[..i];
      if line[i] == ',' {
        out := out + [cur];
        cur := "";
      } else {
        cur := cur + [line[i]];
      }
    }
    assert line[..|line|] == line;
    out := out + [cur];
  }

  predicate Lacks(s: string, c: char) {
    c !in s
  }

  lemma {:induction false} SplitTail(a: string, sep: char, s: string)
    requires Lacks(s, sep)
    ensures Split(a + [sep] + s, sep) == Split(a, sep) + [s]
  {
    var text := a + [sep] + s;
    if s == "" {
      assert text[..|text| - 1] == a;
    } else {
      var init := s[..|s| - 1];
      SplitTail(a, sep, init);
      assert text[..|text| - 1] == a + [sep] + init;
      assert text[|text| - 1] == s[|s| - 1] && s == init + [s[|s| - 1]];
    }
  }

  lemma {:induction false} SplitWhole(s: string, sep: char)
    requires Lacks(s, sep)
    ensures Split(s, sep) == [s]
  {
    if s != "" {
      SplitWhole(s[..|s| - 1], sep);
      assert s == s[..|s| - 1] + [s[|s| - 1]];
    }
  }

  predicate AllLack(parts: seq<string>, c: char) {
    forall p | p in parts :: Lacks(p, c)
  }

  lemma {:induction false} SplitParts(text: string, sep: char)
    ensures AllLack(Split(text, sep), sep)
  {
    if text != "" {
      SplitParts(text[..|text| - 1], sep);
      var before, c := Split(text[..|text| - 1], sep), text[|text| - 1];
      assert before[|before| - 1] in before;
      assert forall p | p in before[..|before| - 1] :: p in before;
    }
  }

  /** Splitting puts no character into a part. */
  lemma {:induction false} SplitKeepsLack(text: string, sep: char, x: char)
    requires Lacks(text, x)
    ensures AllLack(Split(text, sep), x)
  {
    if text != "" {
      var before, c := Split(text[..|text| - 1], sep), text[|text| - 1];
      SplitKeepsLack(text[..|text| - 1], sep, x);
      assert before[|before| - 1] in before;
      assert forall p | p in before[..|before| - 1] :: p in before;
    }
  }

  lemma {:induction false} JoinKeepsLack(parts: seq<string>, sep: char, x: char)
    requires AllLack(parts, x) && x != sep
    ensures Lacks(Join(parts, sep), x)
  {
    if |parts| > 1 {
      JoinKeepsLack(parts[..|parts| - 1], sep, x);
      assert Lacks(parts[|parts| - 1], x);
    } else if |parts| == 1 {
      assert Lacks(parts[0], x);
    }
  }

  lemma {:induction false} JoinMore(parts: seq<string>, sep: char, part: string)
    requires parts != []
    ensures Join(parts + [part], sep) == Join(parts, sep) + [sep] + part
  {
    assert (parts + [part])[..|parts|] == parts;
  }

  /** Splitting undoes joining exactly when no part contains the separator. */
  lemma {:induction false} SplitJoinExactly(parts: seq<string>, sep: char)
    requires parts != []
    ensures Split(Join(parts, sep), sep) == parts <==> AllLack(parts, sep)
  {
    SplitParts(Join(parts, sep), sep);
    if AllLack(parts, sep) {
      if |parts| == 1 {
        SplitWhole(parts[0], sep);
      } else {
        SplitJoinExactly(parts[..|parts| - 1], sep);
        SplitTail(Join(parts[..|parts| - 1], sep), sep, parts[|parts| - 1]);
      }
    }
  }

  // ----- The CSV file -----

  function Grid(f: Format, rows: seq<Row>): (cells: seq<seq<string>>)
    ensures |cells| == |rows| + 1 && cells[0] == Header(TagKeys(rows), ValueKeys(rows))
    ensures forall i | 0 <= i < |rows| :: cells[i + 1] == Cells(f, rows[i], TagKeys(rows), ValueKeys(rows))
  {
    [Header(TagKeys(rows), ValueKeys(rows))]
    + seq(|rows|, i requires 0 <= i < |rows| => Cells(f, rows[i], TagKeys(rows), ValueKeys(rows)))
  }

  /** Every row of cells on a line of its own. */
  function Printed(grid: seq<seq<string>>): string {
    if grid == [] then "" else Printed(grid[..|grid| - 1]) + Join(grid[|grid| - 1], ',') + "\n"
  }

  method CollectKeys(rows: seq<Row>) returns (tagKeys: seq<string>, valueKeys: seq<string>)
    ensures tagKeys == TagKeys(rows) && valueKeys == ValueKeys(rows)
  {
    tagKeys, valueKeys := [], [];
    for i := 0 to |rows|
      invariant tagKeys == TagKeys(rows[..i]) && valueKeys == ValueKeys(rows[..i])
    {
      tagKeys := InsertKeys(tagKeys, rows[i].tags);
      valueKeys := InsertKeys(valueKeys, rows[i].values);
      assert rows[..i + 1][..i] == rows[..i];
    }
    assert rows[..|rows|] == rows;
  }

  method InsertKeys<T>(keys: seq<string>, pairs: seq<(string, T)>) returns (r: seq<string>)
    ensures r == AllInserted(keys, pairs)
  {
    r := keys;
    for i := 0 to |pairs|
      invariant r == AllInserted(keys, pairs[..i])
    {
      r := Inserted(r, pairs[i].0);
      assert pairs[..i + 1][..i] == pairs[..i];
    }
    assert pairs[..|pairs|] == pairs;
  }

  /** The search loop with its break. */
  method Search<T>(pairs: seq<(string, T)>, k: string) returns (r: Option<T>)
    ensures r == FirstOf(pairs, k)
  {
    for i := 0 to |pairs|
      invariant FirstOf(pairs[i..], k) == FirstOf(pairs, k)
    {
      if pairs[i].0 == k {
        return Some(pairs[i].1);
      }
      assert pairs[i..][1..] == pairs[i + 1..];
    }
    return None;
  }

  /** One more cell on a line that already has some. */
  lemma {:induction false} OneMoreCell(front: seq<string>, cells: seq<string>, j: nat, line: string)
    requires front != [] && j < |cells| && line == Join(front + cells[..j], ',')
    ensures line + "," + cells[j] == Join(front + cells[..j + 1], ',')
  {
    assert front + cells[..j + 1] == front + cells[..j] + [cells[j]];
    JoinMore(front + cells[..j], ',', cells[j]);
  }

  lemma {:induction false} NoCellYet(front: seq<string>, cells: seq<string>)
    ensures front + cells[..0] == front && front + cells[..|cells|] == front + cells
  {
  }

  method PrintTags(r: Row, keys: seq<string>, line: string, ghost front: seq<string>) returns (out: string)
    requires front != [] && line == Join(front, ',')
    ensures out == Join(front + TagCells(r, keys), ',')
  {
    out := line;
    NoCellYet(front, TagCells(r, keys));
    for j := 0 to |keys|
      invariant out == Join(front + TagCells(r, keys)[..j], ',')
    {
      OneMoreCell(front, TagCells(r, keys), j, out);
      var found := Search(r.tags, keys[j]);
      out := out + ",";
      if found.Some? {
        out := out + found.value;
      }
    }
  }

  method PrintValues(f: Format, r: Row, keys: seq<string>, line: string, ghost front: seq<string>)
    returns (out: string)
    requires front != [] && line == Join(front, ',')
    ensures out == Join(front + ValueCells(f, r, keys), ',')
  {
    out := line;
    NoCellYet(front, ValueCells(f, r, keys));
    for j := 0 to |keys|
      invariant out == Join(front + ValueCells(f, r, keys)[..j], ',')
    {
      OneMoreCell(front, ValueCells(f, r, keys), j, out);
      var found := Search(r.values, keys[j]);
      out := out + ",";
      if found.Some? {
        out := out + f.value(found.value);
      }
    }
  }

  method PrintNames(prefix: string, keys: seq<string>, line: string, ghost front: seq<string>)
    returns (out: string)
    requires front != [] && line == Join(front, ',')
    ensures out == Join(front + Prefixed(prefix, keys), ',')
  {
    out := line;
    NoCellYet(front, Prefixed(prefix, keys));
    for j := 0 to |keys|
      invariant out == Join(front + Prefixed(prefix, keys)[..j], ',')
    {
      OneMoreCell(front, Prefixed(prefix, keys), j, out);
      out := out + "," + (prefix + keys[j]);
    }
  }

  lemma {:induction false} PrintedStep(grid: seq<seq<string>>, i: nat, done: seq<seq<string>>, more: seq<seq<string>>)
    requires i < |grid| && done == grid[..i] && more == grid[..i + 1]
    ensures Printed(more) == Printed(done) + Join(grid[i], ',') + "\n"
  {
    assert more[..i] == done;
  }

  method PrintHeader(tagKeys: seq<string>, valueKeys: seq<string>) returns (line: string)
    ensures line == Join(Header(tagKeys, valueKeys), ',')
  {
    ghost var fixed := ["ts_ns", "channel"];
    JoinMore(["ts_ns"], ',', "channel");
    line := "ts_ns" + "," + "channel";
    line := PrintNames("tag.", tagKeys, line, fixed);
    line := PrintNames("val.", valueKeys, line, fixed + Prefixed("tag.", tagKeys));
  }

  method PrintRow(f: Format, r: Row, tagKeys: seq<string>, valueKeys: seq<string>) returns (line: string)
    ensures line == Join(Cells(f, r, tagKeys, valueKeys), ',')
  {
    ghost var fixed := [f.ts(r.ts), r.channel];
    JoinMore([f.ts(r.ts)], ',', r.channel);
    line := f.ts(r.ts) + "," + r.channel;
    line := PrintTags(r, tagKeys, line, fixed);
    line := PrintValues(f, r, valueKeys, line, fixed + TagCells(r, tagKeys));
  }

  method WriteCsv(f: Format, rows: seq<Row>) returns (out: string)
    ensures out == Printed(Grid(f, rows))
  {
    ghost var grid, done := Grid(f, rows), Grid(f, rows)[..1];
    var tagKeys, valueKeys := CollectKeys(rows);
    out := PrintHeader(tagKeys, valueKeys);
    PrintedStep(grid, 0, [], done);
    out := out + "\n";
    for i := 0 to |rows|
      invariant done == grid[..i + 1] && out == Printed(done)
    {
      var line := PrintRow(f, rows[i], tagKeys, valueKeys);
      PrintedStep(grid, i + 1, done, grid[..i + 2]);
      out, done := out + line + "\n", grid[..i + 2];
    }
    assert done == grid;
  }

  // ----- Reading the file back -----

  /** std::getline until the end of the text. */
  function GetLines(text: string): seq<string> {
    var parts := Split(text, '\n');
    if parts[|parts| - 1] == "" then parts[..|parts| - 1] else parts
  }

  function ReadGrid(text: string): (grid: seq<seq<string>>)
    ensures |grid| == |GetLines(text)|
    ensures forall i | 0 <= i < |grid| :: grid[i] == Split(GetLines(text)[i], ',')
  {
    var lines := GetLines(text);
    seq(|lines|, i requires 0 <= i < |lines| => Split(lines[i], ','))
  }

  function LinesOf(grid: seq<seq<string>>): (lines: seq<string>)
    ensures |lines| == |grid| && forall i | 0 <= i < |grid| :: lines[i] == Join(grid[i], ',')
  {
    seq(|grid|, i requires 0 <= i < |grid| => Join(grid[i], ','))
  }

  lemma {:induction false} PrintedIsJoin(grid: seq<seq<string>>)
    requires grid != []
    ensures Printed(grid) == Join(LinesOf(grid) + [""], '\n') == Join(LinesOf(grid), '\n') + "\n"
  {
    var n := |grid| - 1;
    var lines := LinesOf(grid);
    JoinMore(lines, '\n', "");
    if n == 0 {
      assert grid[..0] == [];
    } else {
      PrintedIsJoin(grid[..n]);
      assert lines == LinesOf(grid[..n]) + [Join(grid[n], ',')];
      JoinMore(LinesOf(grid[..n]), '\n', Join(grid[n], ','));
    }
  }

  predicate CleanRow(cells: seq<string>) {
    AllLack(cells, ',') && AllLack(cells, '\n')
  }

  lemma {:induction false} ReadRowIsClean(text: string, i: nat)
    requires i < |ReadGrid(text)|
    ensures CleanRow(ReadGrid(text)[i])
  {
    var line := GetLines(text)[i];
    SplitParts(text, '\n');
    assert line in Split(text, '\n');
    SplitParts(line, ',');
    SplitKeepsLack(line, ',', '\n');
  }

  lemma {:induction false} CleanLines(grid: seq<seq<string>>)
    requires forall i | 0 <= i < |grid| :: CleanRow(grid[i])
    ensures AllLack(LinesOf(grid), '\n')
  {
    forall i | 0 <= i < |grid|
      ensures Lacks(LinesOf(grid)[i], '\n')
    {
      JoinKeepsLack(grid[i], ',', '\n');
    }
  }

  /** What was printed is read back cell by cell exactly when no cell holds a comma or a line break. */
  lemma {:induction false} ReadsBackExactly(grid: seq<seq<string>>)
    requires grid != [] && forall i | 0 <= i < |grid| :: grid[i] != []
    ensures ReadGrid(Printed(grid)) == grid <==> forall i | 0 <= i < |grid| :: CleanRow(grid[i])
  {
    var text := Printed(grid);
    if ReadGrid(text) == grid {
      forall i | 0 <= i < |grid|
        ensures CleanRow(grid[i])
      {
        ReadRowIsClean(text, i);
      }
    }
    if forall i | 0 <= i < |grid| :: CleanRow(grid[i]) {
      PrintedIsJoin(grid);
      CleanLines(grid);
      var lines := LinesOf(grid);
      SplitJoinExactly(lines + [""], '\n');
      assert (lines + [""])[..|lines|] == lines;
      assert GetLines(text) == lines;
      forall i | 0 <= i < |grid|
        ensures ReadGrid(text)[i] == grid[i]
      {
        SplitJoinExactly(grid[i], ',');
      }
    }
  }

  /** The same for a file written from rows. */
  lemma {:induction false} CsvReadsBackExactly(f: Format, rows: seq<Row>)
    ensures ReadGrid(Printed(Grid(f, rows))) == Grid(f, rows)
            <==> forall i | 0 <= i <= |rows| :: CleanRow(Grid(f, rows)[i])
  {
    var grid := Grid(f, rows);
    forall i | 0 <= i < |grid|
      ensures grid[i] != []
    {
      if i > 0 {
        assert grid[i] == Cells(f, rows[i - 1], TagKeys(rows), ValueKeys(rows));
      }
    }
    ReadsBackExactly(grid);
  }

  /** One tag with a comma, and the file is not read back. */
  lemma {:induction false} CommaSplitsCell(f: Format, rows: seq<Row>)
    requires rows == [Row(0, "trade", [("k", "a,b")], [])]
    ensures ReadGrid(Printed(Grid(f, rows))) != Grid(f, rows)
  {
    var r, tags := rows[0], TagKeys(rows);
    KeysExactly(rows);
    assert HasKey(r.tags, "k") by {
      assert r.tags[0].0 == "k";
    }
    assert "k" in tags;
    var j :| 0 <= j < |tags| && tags[j] == "k";
    assert TagCell(r, "k") == "a,b";
    var cells := Cells(f, r, tags, ValueKeys(rows));
    assert cells[2 + j] == "a,b";
    assert cells == Grid(f, rows)[1];
    assert !Lacks("a,b", ',') by {
      assert "a,b"[1] == ',';
    }
    CsvReadsBackExactly(f, rows);
  }

  // ----- The Arrow table -----

  /** A finished column; None is a null. */
  datatype Column =
    | Ints(ints: seq<int>)
    | Strings(strings: seq<Option<string>>)
    | Doubles(doubles: seq<Option<real>>)

  datatype Table = Table(fields: seq<string>, columns: seq<Column>)

  /** An empty tag is stored as null. */
  function TagEntry(r: Row, k: string): Option<string> {
    if TagCell(r, k) == "" then None else Some(TagCell(r, k))
  }

  method AppendTags(r: Row, keys: seq<string>, builders: seq<seq<Option<string>>>)
    returns (grown: seq<seq<Option<string>>>)
    requires |builders| == |keys|
    ensures |grown| == |keys|
    ensures forall j | 0 <= j < |keys| :: grown[j] == builders[j] + [TagEntry(r, keys[j])]
  {
    grown := builders;
    for j := 0 to |keys|
      invariant |grown| == |keys|
      invariant forall i | 0 <= i < |keys| ::
                  grown[i] == if i < j then builders[i] + [TagEntry(r, keys[i])] else builders[i]
    {
      var found := Search(r.tags, keys[j]);
      var val := if found.Some? then found.value else "";
      if val == "" {
        grown := grown[j := grown[j] + [None]];
      } else {
        grown := grown[j := grown[j] + [Some(val)]];
      }
    }
  }

  method AppendValues(r: Row, keys: seq<string>, builders: seq<seq<Option<real>>>)
    returns (grown: seq<seq<Option<real>>>)
    requires |builders| == |keys|
    ensures |grown| == |keys|
    ensures forall j | 0 <= j < |keys| :: grown[j] == builders[j] + [FirstOf(r.values, keys[j])]
  {
    grown := builders;
    for j := 0 to |keys|
      invariant |grown| == |keys|
      invariant forall i | 0 <= i < |keys| ::
                  grown[i] == if i < j then builders[i] + [FirstOf(r.values, keys[i])] else builders[i]
    {
      var found := Search(r.values, keys[j]);
      grown := grown[j := grown[j] + [found]];
    }
  }

  function Stamps(rows: seq<Row>): (c: seq<int>)
    ensures |c| == |rows| && forall i | 0 <= i < |rows| :: c[i] == rows[i].ts
  {
    seq(|rows|, i requires 0 <= i < |rows| => rows[i].ts)
  }

  function Names(rows: seq<Row>): (c: seq<Option<string>>)
    ensures |c| == |rows| && forall i | 0 <= i < |rows| :: c[i] == Some(rows[i].channel)
  {
    seq(|rows|, i requires 0 <= i < |rows| => Some(rows[i].channel))
  }

  function TagColumn(rows: seq<Row>, k: string): (c: seq<Option<string>>)
    ensures |c| == |rows| && forall i | 0 <= i < |rows| :: c[i] == TagEntry(rows[i], k)
  {
    seq(|rows|, i requires 0 <= i < |rows| => TagEntry(rows[i], k))
  }

  function ValueColumn(rows: seq<Row>, k: string): (c: seq<Option<real>>)
    ensures |c| == |rows| && forall i | 0 <= i < |rows| :: c[i] == FirstOf(rows[i].values, k)
  {
    seq(|rows|, i requires 0 <= i < |rows| => FirstOf(rows[i].values, k))
  }

  function Columns(rows: seq<Row>, tagKeys: seq<string>, valueKeys: seq<string>): seq<Column> {
    [Ints(Stamps(rows)), Strings(Names(rows))]
    + seq(|tagKeys|, j requires 0 <= j < |tagKeys| => Strings(TagColumn(rows, tagKeys[j])))
    + seq(|valueKeys|, j requires 0 <= j < |valueKeys| => Doubles(ValueColumn(rows, valueKeys[j])))
  }

  /** The builders after the first `n` rows. */
  predicate TagsBuilt(rows: seq<Row>, keys: seq<string>, n: nat, builders: seq<seq<Option<string>>>)
    requires n <= |rows|
  {
    |builders| == |keys| && forall j | 0 <= j < |keys| :: builders[j] == TagColumn(rows, keys[j])[..n]
  }

  predicate ValuesBuilt(rows: seq<Row>, keys: seq<string>, n: nat, builders: seq<seq<Option<real>>>)
    requires n <= |rows|
  {
    |builders| == |keys| && forall j | 0 <= j < |keys| :: builders[j] == ValueColumn(rows, keys[j])[..n]
  }

  /** A prefix of a column with its next entry. */
  lemma {:induction false} PrefixGrows<T>(column: seq<T>, n: nat)
    requires n < |column|
    ensures column[..n] + [column[n]] == column[..n + 1]
  {
  }

  lemma {:induction false} TagsGrow(rows: seq<Row>, keys: seq<string>, n: nat, builders: seq<seq<Option<string>>>,
                 grown: seq<seq<Option<string>>>)
    requires n < |rows| && TagsBuilt(rows, keys, n, builders) && |grown| == |keys|
    requires forall j | 0 <= j < |keys| :: grown[j] == builders[j] + [TagEntry(rows[n], keys[j])]
    ensures TagsBuilt(rows, keys, n + 1, grown)
  {
    forall j | 0 <= j < |keys|
      ensures grown[j] == TagColumn(rows, keys[j])[..n + 1]
    {
      PrefixGrows(TagColumn(rows, keys[j]), n);
    }
  }

  lemma {:induction false} ValuesGrow(rows: seq<Row>, keys: seq<string>, n: nat, builders: seq<seq<Option<real>>>,
                   grown: seq<seq<Option<real>>>)
    requires n < |rows| && ValuesBuilt(rows, keys, n, builders) && |grown| == |keys|
    requires forall j | 0 <= j < |keys| :: grown[j] == builders[j] + [FirstOf(rows[n].values, keys[j])]
    ensures ValuesBuilt(rows, keys, n + 1, grown)
  {
    forall j | 0 <= j < |keys|
      ensures grown[j] == ValueColumn(rows, keys[j])[..n + 1]
    {
      PrefixGrows(ValueColumn(rows, keys[j]), n);
    }
  }

  method RowsToTable(rows: seq<Row>) returns (t: Table)
    ensures t == TableOf(rows)
  {
    var tagKeys, valueKeys := CollectKeys(rows);
    var ts: seq<int>, channels: seq<Option<string>> := [], [];
    var tags: seq<seq<Option<string>>> := seq(|tagKeys|, j => []);
    var values: seq<seq<Option<real>>> := seq(|valueKeys|, j => []);
    for i := 0 to |rows|
      invariant ts == Stamps(rows)[..i] && channels == Names(rows)[..i]
      invariant TagsBuilt(rows, tagKeys, i, tags) && ValuesBuilt(rows, valueKeys, i, values)
    {
      PrefixGrows(Stamps(rows), i);
      PrefixGrows(Names(rows), i);
      ts, channels := ts + [rows[i].ts], channels + [Some(rows[i].channel)];
      ghost var tags0, values0 := tags, values;
      tags := AppendTags(rows[i], tagKeys, tags);
      values := AppendValues(rows[i], valueKeys, values);
      TagsGrow(rows, tagKeys, i, tags0, tags);
      ValuesGrow(rows, valueKeys, i, values0, values);
    }
    t := Table(Header(tagKeys, valueKeys), Finished(ts, channels, tags, values));
    AllFinished(rows, tagKeys, valueKeys, tags, values);
  }

  function Finished(ts: seq<int>, channels: seq<Option<string>>, tags: seq<seq<Option<string>>>,
                    values: seq<seq<Option<real>>>): seq<Column> {
    [Ints(ts), Strings(channels)]
    + seq(|tags|, j requires 0 <= j < |tags| => Strings(tags[j]))
    + seq(|values|, j requires 0 <= j < |values| => Doubles(values[j]))
  }

  lemma {:induction false} AllFinished(rows: seq<Row>, tagKeys: seq<string>, valueKeys: seq<string>,
                                       tags: seq<seq<Option<string>>>,
                    values: seq<seq<Option<real>>>)
    requires TagsBuilt(rows, tagKeys, |rows|, tags) && ValuesBuilt(rows, valueKeys, |rows|, values)
    ensures Finished(Stamps(rows)[..|rows|], Names(rows)[..|rows|], tags, values) == Columns(rows, tagKeys, valueKeys)
  {
    assert Stamps(rows)[..|rows|] == Stamps(rows) && Names(rows)[..|rows|] == Names(rows);
    assert forall j | 0 <= j < |tags| :: TagColumn(rows, tagKeys[j])[..|rows|] == TagColumn(rows, tagKeys[j]);
    assert forall j | 0 <= j < |values| :: ValueColumn(rows, valueKeys[j])[..|rows|] == ValueColumn(rows, valueKeys[j]);
    assert seq(|tags|, j requires 0 <= j < |tags| => Strings(tags[j]))
        == seq(|tagKeys|, j requires 0 <= j < |tagKeys| => Strings(TagColumn(rows, tagKeys[j])));
    assert seq(|values|, j requires 0 <= j < |values| => Doubles(values[j]))
        == seq(|valueKeys|, j requires 0 <= j < |valueKeys| => Doubles(ValueColumn(rows, valueKeys[j])));
  }

  // ----- The two forms agree -----

  function Length(c: Column): nat {
    match c
    case Ints(xs) => |xs|
    case Strings(xs) => |xs|
    case Doubles(xs) => |xs|
  }

  predicate IsNull(c: Column, i: nat)
    requires i < Length(c)
  {
    match c
    case Ints(_) => false
    case Strings(xs) => xs[i].None?
    case Doubles(xs) => xs[i].None?
  }

  /** An entry as the CSV form would show it. */
  function Shown(f: Format, c: Column, i: nat): string
    requires i < Length(c)
  {
    match c
    case Ints(xs) => f.ts(xs[i])
    case Strings(xs) => if xs[i].Some? then xs[i].value else ""
    case Doubles(xs) => if xs[i].Some? then f.value(xs[i].value) else ""
  }

  lemma {:induction false} TagsAgree(f: Format, rows: seq<Row>, k: string, i: nat)
    requires i < |rows|
    ensures Shown(f, Strings(TagColumn(rows, k)), i) == TagCell(rows[i], k)
    ensures IsNull(Strings(TagColumn(rows, k)), i) <==> TagCell(rows[i], k) == ""
  {
  }

  lemma {:induction false} ValuesAgree(f: Format, rows: seq<Row>, k: string, i: nat)
    requires i < |rows|
    ensures Shown(f, Doubles(ValueColumn(rows, k)), i) == ValueCell(f, rows[i], k)
    ensures IsNull(Doubles(ValueColumn(rows, k)), i) <==> !HasKey(rows[i].values, k)
  {
  }

  lemma {:induction false} ColumnsAt(rows: seq<Row>, tags: seq<string>, values: seq<string>, j: nat)
    requires j < 2 + |tags| + |values|
    ensures var columns := Columns(rows, tags, values);
            && |columns| == 2 + |tags| + |values|
            && columns[j] == if j == 0 then Ints(Stamps(rows))
                             else if j == 1 then Strings(Names(rows))
                             else if j < 2 + |tags| then Strings(TagColumn(rows, tags[j - 2]))
                             else Doubles(ValueColumn(rows, values[j - 2 - |tags|]))
  {
  }

  lemma {:induction false} CellsAt(f: Format, r: Row, tags: seq<string>, values: seq<string>, j: nat)
    requires j < 2 + |tags| + |values|
    ensures var cells := Cells(f, r, tags, values);
            && |cells| == 2 + |tags| + |values|
            && cells[j] == if j == 0 then f.ts(r.ts)
                           else if j == 1 then r.channel
                           else if j < 2 + |tags| then TagCell(r, tags[j - 2])
                           else ValueCell(f, r, values[j - 2 - |tags|])
  {
  }

  /** As many names and columns as a line has cells. */
  lemma {:induction false} SameShape(f: Format, rows: seq<Row>, r: Row)
    ensures var tags, values := TagKeys(rows), ValueKeys(rows);
            |Header(tags, values)| == |Columns(rows, tags, values)| == |Cells(f, r, tags, values)|
                                   == 2 + |tags| + |values|
  {
  }

  /** Every entry of the table shows what the CSV form has in the cell of its row and column; a tag is null
      exactly where its cell is empty, a value exactly where the row lacks the key. */
  lemma {:induction false} FormsAgree(f: Format, rows: seq<Row>, i: nat, j: nat, tags: seq<string>, values: seq<string>)
    requires i < |rows| && tags == TagKeys(rows) && values == ValueKeys(rows)
    requires j < |Columns(rows, tags, values)| && j < |Cells(f, rows[i], tags, values)|
    ensures EntryAgrees(f, rows, i, j, tags, values, Columns(rows, tags, values)[j], Cells(f, rows[i], tags, values)[j])
  {
    SameShape(f, rows, rows[i]);
    ColumnsAt(rows, tags, values, j);
    CellsAt(f, rows[i], tags, values, j);
    if 2 <= j < 2 + |tags| {
      TagsAgree(f, rows, tags[j - 2], i);
    } else if 2 <= j {
      ValuesAgree(f, rows, values[j - 2 - |tags|], i);
    }
  }

  ghost predicate EntryAgrees(f: Format, rows: seq<Row>, i: nat, j: nat, tags: seq<string>, values: seq<string>,
                              column: Column, cell: string)
    requires i < |rows|
  {
    && Length(column) == |rows|
    && Shown(f, column, i) == cell
    && (2 <= j < 2 + |tags| ==> (IsNull(column, i) <==> cell == ""))
    && (2 + |tags| <= j < 2 + |tags| + |values| ==>
          (IsNull(column, i) <==> !HasKey(rows[i].values, values[j - 2 - |tags|])))
  }

  // ----- Looking a column up by its name -----

  function TableOf(rows: seq<Row>): Table {
    Table(Header(TagKeys(rows), ValueKeys(rows)), Columns(rows, TagKeys(rows), ValueKeys(rows)))
  }

  /** The name stands at position `j` and nowhere else. */
  predicate OnlyAt(names: seq<string>, j: nat, name: string) {
    j < |names| && names[j] == name && forall i | 0 <= i < |names| && i != j :: names[i] != name
  }

  /** The first pair with the key. */
  ghost predicate FirstPair<T(!new)>(pairs: seq<(string, T)>, k: string, v: T) {
    exists p :: 0 <= p < |pairs| && pairs[p] == (k, v) && forall q | 0 <= q < p :: pairs[q].0 != k
  }

  lemma {:induction false} PrefixTells(p: string, k: string, q: string, l: string)
    requires |p| == |q| && p + k == q + l
    ensures p == q && k == l
  {
    assert (p + k)[..|p|] == p && (q + l)[..|q|] == q && (p + k)[|p|..] == k && (q + l)[|q|..] == l;
  }

  lemma {:induction false} NamesAt(tags: seq<string>, values: seq<string>, i: nat)
    requires i < 2 + |tags| + |values|
    ensures |Header(tags, values)| == 2 + |tags| + |values|
    ensures Header(tags, values)[i] == if i == 0 then "ts_ns"
                                       else if i == 1 then "channel"
                                       else if i < 2 + |tags| then "tag." + tags[i - 2]
                                       else "val." + values[i - 2 - |tags|]
  {
  }

  /** No two columns share a name. */
  lemma {:induction false} NamesApart(tags: seq<string>, values: seq<string>, i: nat, j: nat)
    requires Ordered(tags) && Ordered(values) && i < j < 2 + |tags| + |values|
    ensures |Header(tags, values)| == 2 + |tags| + |values| && Header(tags, values)[i] != Header(tags, values)[j]
  {
    NamesAt(tags, values, i);
    NamesAt(tags, values, j);
    if 2 <= i {
      var p, q := if i < 2 + |tags| then "tag." else "val.", if j < 2 + |tags| then "tag." else "val.";
      var k := if i < 2 + |tags| then tags[i - 2] else values[i - 2 - |tags|];
      var l := if j < 2 + |tags| then tags[j - 2] else values[j - 2 - |tags|];
      LessTotal(k, k);
      if p + k == q + l {
        PrefixTells(p, k, q, l);
      }
    } else if 2 <= j {
      FixedNames(Header(tags, values)[j]);
    }
  }

  lemma {:induction false} FixedNames(name: string)
    requires |name| >= 4 && (name[..4] == "tag." || name[..4] == "val.")
    ensures name != "ts_ns" && name != "channel"
  {
    assert name[0] == name[..4][0];
    assert "ts_ns"[..4] == "ts_n" && "channel"[..4] == "chan";
    assert "ts_n" != "tag." by {
      assert "ts_n"[1] != "tag."[1];
    }
  }

  lemma {:induction false} OnlyThere(tags: seq<string>, values: seq<string>, j: nat, name: string)
    requires Ordered(tags) && Ordered(values) && j < |Header(tags, values)| && Header(tags, values)[j] == name
    ensures OnlyAt(Header(tags, values), j, name)
  {
    forall i | 0 <= i < |Header(tags, values)| && i != j
      ensures Header(tags, values)[i] != name
    {
      NamesLength(tags, values);
      if i < j {
        NamesApart(tags, values, i, j);
      } else {
        NamesApart(tags, values, j, i);
      }
    }
  }

  lemma {:induction false} NamesLength(tags: seq<string>, values: seq<string>)
    ensures |Header(tags, values)| == 2 + |tags| + |values|
  {
  }

  /** What a reader finds under `name`, in either form: its one position, the CSV cell there and the column. */
  ghost predicate FoundUnder(f: Format, rows: seq<Row>, i: nat, name: string, j: nat, cell: string, column: Column)
    requires i < |rows|
  {
    var t, grid := TableOf(rows), Grid(f, rows);
    && OnlyAt(t.fields, j, name) && OnlyAt(grid[0], j, name)
    && j < |grid[i + 1]| && grid[i + 1][j] == cell
    && j < |t.columns| && t.columns[j] == column
  }

  lemma {:induction false} Found(f: Format, rows: seq<Row>, i: nat, name: string, j: nat, tags: seq<string>,
                                 values: seq<string>)
    requires i < |rows| && tags == TagKeys(rows) && values == ValueKeys(rows) && j < 2 + |tags| + |values|
    requires j < |Header(tags, values)| && Header(tags, values)[j] == name
    ensures j < |Cells(f, rows[i], tags, values)| && j < |Columns(rows, tags, values)|
    ensures FoundUnder(f, rows, i, name, j, Cells(f, rows[i], tags, values)[j], Columns(rows, tags, values)[j])
  {
    KeysExactly(rows);
    OnlyThere(tags, values, j, name);
    SameShape(f, rows, rows[i]);
  }

  /** The two fixed columns come first. */
  lemma {:induction false} FixedByName(f: Format, rows: seq<Row>, i: nat)
    requires i < |rows|
    ensures FoundUnder(f, rows, i, "ts_ns", 0, f.ts(rows[i].ts), Ints(Stamps(rows)))
    ensures FoundUnder(f, rows, i, "channel", 1, rows[i].channel, Strings(Names(rows)))
  {
    var tags, values := TagKeys(rows), ValueKeys(rows);
    NamesAt(tags, values, 0);
    NamesAt(tags, values, 1);
    Found(f, rows, i, "ts_ns", 0, tags, values);
    Found(f, rows, i, "channel", 1, tags, values);
  }

  lemma {:induction false} KeyPosition(keys: seq<string>, k: string) returns (m: nat)
    requires k in keys
    ensures m < |keys| && keys[m] == k
  {
    m :| m < |keys| && keys[m] == k;
  }

  lemma {:induction false} RowKeys(rows: seq<Row>, i: nat, k: string)
    requires i < |rows|
    ensures HasKey(rows[i].tags, k) ==> k in TagKeys(rows)
    ensures HasKey(rows[i].values, k) ==> k in ValueKeys(rows)
  {
    KeysExactly(rows);
    assert rows[i] in rows;
  }

  /** A tag is found under "tag." and its key: the first pair's value, null in the table when that is empty. */
  lemma {:induction false} TagByName(f: Format, rows: seq<Row>, i: nat, k: string)
    returns (j: nat, v: string, column: Column)
    requires i < |rows| && HasKey(rows[i].tags, k)
    ensures FirstPair(rows[i].tags, k, v) && FoundUnder(f, rows, i, "tag." + k, j, v, column)
    ensures column.Strings? && |column.strings| == |rows|
    ensures column.strings[i] == if v == "" then None else Some(v)
  {
    var tags, values := TagKeys(rows), ValueKeys(rows);
    RowKeys(rows, i, k);
    var m := KeyPosition(tags, k);
    j, v, column := 2 + m, FirstOf(rows[i].tags, k).value, Strings(TagColumn(rows, k));
    NamesAt(tags, values, j);
    Found(f, rows, i, "tag." + k, j, tags, values);
    ColumnsAt(rows, tags, values, j);
    CellsAt(f, rows[i], tags, values, j);
  }

  /** A value is found under "val." and its key: the first pair's value, formatted in the text. */
  lemma {:induction false} ValueByName(f: Format, rows: seq<Row>, i: nat, k: string)
    returns (j: nat, v: real, column: Column)
    requires i < |rows| && HasKey(rows[i].values, k)
    ensures FirstPair(rows[i].values, k, v) && FoundUnder(f, rows, i, "val." + k, j, f.value(v), column)
    ensures column.Doubles? && |column.doubles| == |rows| && column.doubles[i] == Some(v)
  {
    var tags, values := TagKeys(rows), ValueKeys(rows);
    RowKeys(rows, i, k);
    var m := KeyPosition(values, k);
    j, v, column := 2 + |tags| + m, FirstOf(rows[i].values, k).value, Doubles(ValueColumn(rows, k));
    NamesAt(tags, values, j);
    Found(f, rows, i, "val." + k, j, tags, values);
    ColumnsAt(rows, tags, values, j);
    CellsAt(f, rows[i], tags, values, j);
  }

  /** Neither the order of the rows nor how often they come changes the columns. */
  lemma {:induction false} ColumnsCanonical(a: seq<Row>, b: seq<Row>)
    requires forall r :: r in a <==> r in b
    ensures TagKeys(a) == TagKeys(b) && ValueKeys(a) == ValueKeys(b)
  {
    KeysExactly(a);
    KeysExactly(b);
    OrderedUnique(TagKeys(a), TagKeys(b));
    OrderedUnique(ValueKeys(a), ValueKeys(b));
  }
}
