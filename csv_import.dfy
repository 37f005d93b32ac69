/**
 * The line handling of `import_prefix_csv` (imei_tool.c): each line read from
 * the CSV file is cut with `strtok(line, ",")` and `strtok(NULL, "\n")`, and
 * the pair is handed to `import_prefix` only when both calls found a token.
 *
 * `strtok` is modelled on indices into the line: a call skips the delimiters
 * at its starting point, returns nothing if the line ends there, and otherwise
 * returns the characters up to the next delimiter or the end of the line. When
 * the token ended at a delimiter, the next call resumes just after it (the
 * delimiter itself is overwritten with a terminator); when it ended at the end
 * of the line, the next call resumes at the end and finds nothing.
 */
module CsvImport {
  import opened Wrappers

  /** A (prefix, model) pair passed to `import_prefix`. */
  datatype PrefixRow = PrefixRow(prefix: string, model: string)

  /** `n` copies of the character `c`. */
  function Repeat(c: char, n: nat): (s: string)
    ensures |s| == n && forall k :: 0 <= k < n ==> s[k] == c
  {
    seq(n, _ => c)
  }

  // ---------------------------------------------------------------------------
  // strtok
  // ---------------------------------------------------------------------------

  /** The first index at or after `i` that does not hold `d` (`strspn`). */
  function SkipDelims(line: string, i: nat, d: char): (j: nat)
    requires i <= |line|
    ensures i <= j <= |line|
    ensures forall k :: i <= k < j ==> line[k] == d
    ensures j < |line| ==> line[j] != d
    decreases |line| - i
  {
    if i == |line| || line[i] != d then i else SkipDelims(line, i + 1, d)
  }

  /** The first index at or after `i` that holds `d`, or the end (`strcspn`). */
  function TokenEnd(line: string, i: nat, d: char): (j: nat)
    requires i <= |line|
    ensures i <= j <= |line|
    ensures forall k :: i <= k < j ==> line[k] != d
    ensures j < |line| ==> line[j] == d
    decreases |line| - i
  {
    if i == |line| || line[i] == d then i else TokenEnd(line, i + 1, d)
  }

  /**
   * A token: the index `strtok` returns a pointer to, the token's characters,
   * and the index at which the next `strtok(NULL, …)` resumes.
   */
  datatype Token = Token(start: nat, text: string, next: nat)

  /**
   * One `strtok` call with the single delimiter `d`, resuming at `from`: it
   * finds nothing exactly when only delimiters remain, and otherwise a
   * non-empty token free of the delimiter, after which the next call resumes
   * further on. `StrTokPlaces` and `StrTokAt` say exactly where the token is.
   */
  function StrTok(line: string, from: nat, d: char): (r: Option<Token>)
    requires from <= |line|
    ensures r.None? <==> forall k :: from <= k < |line| ==> line[k] == d
    ensures r.Some? ==> r.value.text != [] && d !in r.value.text
    ensures r.Some? ==> from <= r.value.start < r.value.next <= |line|
  {
    var start := SkipDelims(line, from, d);
    if start == |line| then None
    else
      var end := TokenEnd(line, start, d);
      Some(Token(start, line[start..end], if end < |line| then end + 1 else end))
  }

  /**
   * The split of one line: `strtok(line, ",")` for the prefix, then
   * `strtok(NULL, "\n")` for the model; the line is kept only if both are found.
   */
  function SplitLine(line: string): (r: Option<PrefixRow>)
    ensures r.Some? ==> r.value.prefix != [] && ',' !in r.value.prefix
    ensures r.Some? ==> r.value.model != [] && '\n' !in r.value.model
    ensures r.Some? ==> |r.value.prefix| + 1 + |r.value.model| <= |line|
  {
    match StrTok(line, 0, ',')
    case None => None
    case Some(prefix) =>
      match StrTok(line, prefix.next, '\n')
      case None => None
      case Some(model) => Some(PrefixRow(prefix.text, model.text))
  }

  // ---------------------------------------------------------------------------
  // Which lines are kept
  // ---------------------------------------------------------------------------

  /** `SkipDelims` stops at the first non-delimiter, whichever way it is found. */
  lemma SkipDelimsAt(line: string, i: nat, j: nat, d: char)
    requires i <= j <= |line|
    requires forall k :: i <= k < j ==> line[k] == d
    requires j < |line| ==> line[j] != d
    ensures SkipDelims(line, i, d) == j
  {
  }

  /** `TokenEnd` stops at the first delimiter, whichever way it is found. */
  lemma TokenEndAt(line: string, i: nat, j: nat, d: char)
    requires i <= j <= |line|
    requires forall k :: i <= k < j ==> line[k] != d
    requires j < |line| ==> line[j] == d
    ensures TokenEnd(line, i, d) == j
  {
  }

  /** The shape of a kept line: commas, prefix, comma, newlines, model, and a rest that starts a new line. */
  predicate IsLayout(line: string, a: nat, prefix: string, b: nat, model: string, rest: string) {
    line == Repeat(',', a) + prefix + [','] + Repeat('\n', b) + model + rest
  }

  /** What a kept prefix and model look like. */
  predicate WellSplit(prefix: string, model: string, rest: string) {
    prefix != [] && ',' !in prefix && model != [] && '\n' !in model && (rest == [] || rest[0] == '\n')
  }

  /**
   * Where a found token is: it starts at the first non-delimiter `s` at or
   * after `from`, runs up to the next delimiter or the end of the line `e`,
   * and the next call resumes just past that delimiter, or at the end.
   */
  lemma {:induction false} StrTokPlaces(line: string, from: nat, d: char) returns (s: nat, e: nat)
    requires from <= |line| && StrTok(line, from, d).Some?
    ensures from <= s < e <= |line|
    ensures forall k :: from <= k < s ==> line[k] == d
    ensures forall k :: s <= k < e ==> line[k] != d
    ensures e < |line| ==> line[e] == d
    ensures StrTok(line, from, d) == Some(Token(s, line[s..e], if e < |line| then e + 1 else e))
  {
    s := SkipDelims(line, from, d);
    e := TokenEnd(line, s, d);
  }

  /** Conversely, `strtok` returns the run `s..e` when only delimiters precede it and a delimiter or the end follows. */
  lemma {:induction false} StrTokAt(line: string, from: nat, s: nat, e: nat, d: char)
    requires from <= s < e <= |line|
    requires forall k :: from <= k < s ==> line[k] == d
    requires forall k :: s <= k < e ==> line[k] != d
    requires e < |line| ==> line[e] == d
    ensures StrTok(line, from, d) == Some(Token(s, line[s..e], if e < |line| then e + 1 else e))
  {
    SkipDelimsAt(line, from, s, d);
    TokenEndAt(line, s, e, d);
  }

  /**
   * The positions of a kept line: commas before `p0`, the prefix `p0..p1`,
   * the comma at `p1`, newlines up to `m0`, the model `m0..m1`, and then the
   * end or a newline.
   */
  predicate SplitsAt(line: string, p0: nat, p1: nat, m0: nat, m1: nat) {
    && p0 < p1 < m0 < m1 <= |line|
    && (forall k :: 0 <= k < p0 ==> line[k] == ',')
    && (forall k :: p0 <= k < p1 ==> line[k] != ',')
    && line[p1] == ','
    && (forall k :: p1 + 1 <= k < m0 ==> line[k] == '\n')
    && (forall k :: m0 <= k < m1 ==> line[k] != '\n')
    && (m1 < |line| ==> line[m1] == '\n')
  }

  /** The split in terms of positions: a line with those positions yields the prefix and model they bound. */
  lemma {:induction false} SplitLineAt(line: string, p0: nat, p1: nat, m0: nat, m1: nat, prefix: string, model: string)
    requires SplitsAt(line, p0, p1, m0, m1)
    requires line[p0..p1] == prefix && line[m0..m1] == model
    ensures SplitLine(line) == Some(PrefixRow(prefix, model))
  {
    StrTokAt(line, 0, p0, p1, ',');
    StrTokAt(line, p1 + 1, m0, m1, '\n');
  }

  /** A line of the layout shape has the positions its parts give. */
  lemma {:induction false} LayoutPositions(line: string, a: nat, prefix: string, b: nat, model: string, rest: string)
    requires IsLayout(line, a, prefix, b, model, rest) && WellSplit(prefix, model, rest)
    ensures SplitsAt(line, a, a + |prefix|, a + |prefix| + 1 + b, a + |prefix| + 1 + b + |model|)
    ensures line[a..a + |prefix|] == prefix
    ensures line[a + |prefix| + 1 + b..a + |prefix| + 1 + b + |model|] == model
  {
    var p1 := a + |prefix|;
    var m0 := p1 + 1 + b;
    forall k | a <= k < p1 ensures line[k] != ',' {
      assert line[k] == prefix[k - a];
    }
    forall k | m0 <= k < m0 + |model| ensures line[k] != '\n' {
      assert line[k] == model[k - m0];
    }
    assert m0 + |model| < |line| ==> line[m0 + |model|] == rest[0];
  }

  /** Conversely, a line with those positions has the layout shape around its parts. */
  lemma {:induction false} PositionsLayout(line: string, p0: nat, p1: nat, m0: nat, m1: nat)
    requires SplitsAt(line, p0, p1, m0, m1)
    ensures IsLayout(line, p0, line[p0..p1], m0 - (p1 + 1), line[m0..m1], line[m1..])
    ensures WellSplit(line[p0..p1], line[m0..m1], line[m1..])
  {
    assert line[..p0] == Repeat(',', p0);
    assert line[p1 + 1..m0] == Repeat('\n', m0 - (p1 + 1));
    assert line == line[..p0] + line[p0..p1] + [line[p1]] + line[p1 + 1..m0] + line[m0..m1] + line[m1..];
  }

  /**
   * Every line of that shape is kept, and split into exactly that prefix and
   * model: leading commas are skipped, the prefix gets no length or digit
   * check, and the model keeps any commas it contains.
   */
  lemma {:induction false} SplitLineOfLayout(line: string, a: nat, prefix: string, b: nat, model: string, rest: string)
    requires IsLayout(line, a, prefix, b, model, rest) && WellSplit(prefix, model, rest)
    ensures SplitLine(line) == Some(PrefixRow(prefix, model))
  {
    LayoutPositions(line, a, prefix, b, model, rest);
    var p1 := a + |prefix|;
    var m0 := p1 + 1 + b;
    SplitLineAt(line, a, p1, m0, m0 + |model|, prefix, model);
  }

  /** A line with those positions is kept, and has the layout shape around the prefix and model it yields. */
  lemma {:induction false} PositionsShape(line: string, p0: nat, p1: nat, m0: nat, m1: nat)
    requires SplitsAt(line, p0, p1, m0, m1)
    ensures SplitLine(line).Some?
    ensures WellSplit(SplitLine(line).value.prefix, SplitLine(line).value.model, line[m1..])
    ensures IsLayout(line, p0, SplitLine(line).value.prefix, m0 - (p1 + 1), SplitLine(line).value.model, line[m1..])
  {
    SplitLineAt(line, p0, p1, m0, m1, line[p0..p1], line[m0..m1]);
    PositionsLayout(line, p0, p1, m0, m1);
  }

  /** Every kept line has the positions of the split. */
  lemma {:induction false} KeptPositions(line: string) returns (p0: nat, p1: nat, m0: nat, m1: nat)
    requires SplitLine(line).Some?
    ensures SplitsAt(line, p0, p1, m0, m1)
  {
    p0, p1 := StrTokPlaces(line, 0, ',');
    m0, m1 := StrTokPlaces(line, p1 + 1, '\n');
  }

  /** Conversely, every kept line has that shape around the prefix and model it yields. */
  lemma {:induction false} SplitLineShape(line: string) returns (a: nat, b: nat, rest: string)
    requires SplitLine(line).Some?
    ensures WellSplit(SplitLine(line).value.prefix, SplitLine(line).value.model, rest)
    ensures IsLayout(line, a, SplitLine(line).value.prefix, b, SplitLine(line).value.model, rest)
  {
    var p0, p1, m0, m1 := KeptPositions(line);
    PositionsShape(line, p0, p1, m0, m1);
    a, b, rest := p0, m0 - (p1 + 1), line[m1..];
  }

  /** A line whose prefix is not followed by a model, and a line without a comma, are skipped. */
  lemma SkippedSamples()
    ensures SplitLine("12345678,\n") == None
    ensures SplitLine("abc\n") == None
  {
    // In both lines the first `strtok` finds a token and the second returns NULL.
  }

  /** A plain line is split at its first comma. */
  lemma KeptSample()
    ensures SplitLine("35209900,Pixel 7\n") == Some(PrefixRow("35209900", "Pixel 7"))
  {
    var line := "35209900,Pixel 7\n";
    var prefix, model := "35209900", "Pixel 7";
    assert Repeat(',', 0) == [] && Repeat('\n', 0) == [];
    assert IsLayout(line, 0, prefix, 0, model, "\n");
    SplitLineOfLayout(line, 0, prefix, 0, model, "\n");
  }

  /** Leading commas are dropped, and later commas stay in the model. */
  lemma KeptSampleWithCommas()
    ensures SplitLine(",,1234,A,B\n") == Some(PrefixRow("1234", "A,B"))
  {
    var line := ",,1234,A,B\n";
    var prefix, model := "1234", "A,B";
    assert Repeat(',', 2) == ",," && Repeat('\n', 0) == [];
    assert IsLayout(line, 2, prefix, 0, model, "\n");
    SplitLineOfLayout(line, 2, prefix, 0, model, "\n");
  }

  // ---------------------------------------------------------------------------
  // The import loop
  // ---------------------------------------------------------------------------

  /**
   * The values `f` yields on the elements of `xs` that it does not map to
   * None, in order.
   */
  function FilterMap<T, U>(xs: seq<T>, f: T -> Option<U>): seq<U>
    decreases |xs|
  {
    if xs == [] then []
    else FilterMap(xs[..|xs| - 1], f) + (match f(xs[|xs| - 1]) case Some(u) => [u] case None => [])
  }

  lemma {:induction false} FilterMapAppend<T, U>(xs: seq<T>, ys: seq<T>, f: T -> Option<U>)
    ensures FilterMap(xs + ys, f) == FilterMap(xs, f) + FilterMap(ys, f)
    decreases |ys|
  {
    if ys == [] {
      assert xs + ys == xs;
    } else {
      var zs := xs + ys;
      var init := ys[..|ys| - 1];
      assert zs[..|zs| - 1] == xs + init;
      assert zs[|zs| - 1] == ys[|ys| - 1];
      FilterMapAppend(xs, init, f);
    }
  }

  lemma {:induction false} FilterMapLength<T, U>(xs: seq<T>, f: T -> Option<U>)
    ensures |FilterMap(xs, f)| <= |xs|
    decreases |xs|
  {
    if xs != [] {
      FilterMapLength(xs[..|xs| - 1], f);
    }
  }

  lemma {:induction false} FilterMapMembers<T, U>(xs: seq<T>, f: T -> Option<U>, u: U)
    ensures u in FilterMap(xs, f) <==> exists i :: 0 <= i < |xs| && f(xs[i]) == Some(u)
    decreases |xs|
  {
    if xs != [] {
      var n := |xs| - 1;
      var init := xs[..n];
      FilterMapMembers(init, f, u);
      if exists i :: 0 <= i < |init| && f(init[i]) == Some(u) {
        var i :| 0 <= i < |init| && f(init[i]) == Some(u);
        assert xs[i] == init[i];
      }
      if i :| 0 <= i < |xs| && f(xs[i]) == Some(u) {
        if i < n {
          assert init[i] == xs[i];
        }
      }
    }
  }

  /** The rows `import_prefix` is called with for the given lines, in order. */
  function Imports(lines: seq<string>): (rows: seq<PrefixRow>)
    ensures |rows| <= |lines|
  {
    FilterMapLength(lines, SplitLine);
    FilterMap(lines, SplitLine)
  }

  /**
   * The `while (fgets(...))` loop of `import_prefix_csv` over lines already
   * read: every line that splits is passed on, in order; nothing is
   * deduplicated.
   */
  method ImportPrefixCsv(lines: seq<string>) returns (inserted: seq<PrefixRow>)
    ensures inserted == Imports(lines)
  {
    inserted := [];
    var i := 0;
    while i < |lines|
      invariant 0 <= i <= |lines|
      invariant inserted == Imports(lines[..i])
    {
      assert lines[..i + 1][..i] == lines[..i];
      var row := SplitLine(lines[i]);
      if row.Some? {
        inserted := inserted + [row.value];
      }
      i := i + 1;
    }
    assert lines[..|lines|] == lines;
  }

  /** Importing two files' worth of lines is importing one, then the other. */
  lemma ImportsAppend(xs: seq<string>, ys: seq<string>)
    ensures Imports(xs + ys) == Imports(xs) + Imports(ys)
  {
    FilterMapAppend(xs, ys, SplitLine);
  }

  /** A row is imported exactly when some line splits into it. */
  lemma ImportsFromLines(lines: seq<string>, row: PrefixRow)
    ensures row in Imports(lines) <==> exists i :: 0 <= i < |lines| && SplitLine(lines[i]) == Some(row)
  {
    FilterMapMembers(lines, SplitLine, row);
  }

  /** The same prefix on two lines is passed on twice: no uniqueness is enforced. */
  lemma DuplicateLinesImportedTwice(line: string)
    requires SplitLine(line).Some?
    ensures Imports([line, line]) == [SplitLine(line).value, SplitLine(line).value]
  {
    assert [line] + [line] == [line, line];
    FilterMapAppend([line], [line], SplitLine);
    assert [line][..0] == [];
  }
}
