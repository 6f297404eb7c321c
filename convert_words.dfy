/**
 * The word-list converter: each CSV row becomes one word entry, with blank
 * fields defaulted and the category list split on '|'. The first invalid row
 * stops the conversion and nothing is written.
 */
module ConvertWords {
  import opened Common

  /** The characters Python's `str.strip()` removes: those for which `str.isspace()` holds. */
  predicate IsWhitespace(c: char) {
    || ('\t' <= c <= '\r')
    || ('\U{1C}' <= c <= '\U{1F}')
    || c == ' ' || c == '\U{85}' || c == '\U{A0}' || c == '\U{1680}'
    || ('\U{2000}' <= c <= '\U{200A}')
    || c == '\U{2028}' || c == '\U{2029}' || c == '\U{202F}' || c == '\U{205F}' || c == '\U{3000}'
  }

  /** The index of the first non-whitespace character of `s` at or after `i`, or `|s|`. */
  function SkipBlanksFrom(s: string, i: nat): (j: nat)
    requires i <= |s|
    ensures i <= j <= |s|
    ensures j < |s| ==> !IsWhitespace(s[j])
    decreases |s| - i
  {
    if i < |s| && IsWhitespace(s[i]) then SkipBlanksFrom(s, i + 1) else i
  }

  /** Everything `SkipBlanksFrom` skips is whitespace. */
  lemma {:induction false} SkipBlanksFromSkipsBlanks(s: string, i: nat)
    requires i <= |s|
    ensures forall k :: i <= k < SkipBlanksFrom(s, i) ==> IsWhitespace(s[k])
    decreases |s| - i
  {
    if i < |s| && IsWhitespace(s[i]) {
      SkipBlanksFromSkipsBlanks(s, i + 1);
    }
  }

  /** The index just past the last non-whitespace character of `s` before `j`, or `lo`. */
  function SkipBlanksBack(s: string, lo: nat, j: nat): (e: nat)
    requires lo <= j <= |s|
    ensures lo <= e <= j
    ensures e > lo ==> !IsWhitespace(s[e - 1])
    decreases j
  {
    if j > lo && IsWhitespace(s[j - 1]) then SkipBlanksBack(s, lo, j - 1) else j
  }

  /** Everything `SkipBlanksBack` skips is whitespace. */
  lemma {:induction false} SkipBlanksBackSkipsBlanks(s: string, lo: nat, j: nat)
    requires lo <= j <= |s|
    ensures forall k :: SkipBlanksBack(s, lo, j) <= k < j ==> IsWhitespace(s[k])
    decreases j
  {
    if j > lo && IsWhitespace(s[j - 1]) {
      SkipBlanksBackSkipsBlanks(s, lo, j - 1);
    }
  }

  /** `str.strip()`. */
  function Strip(s: string): (r: string)
    ensures |r| <= |s|
    ensures r == [] || (!IsWhitespace(r[0]) && !IsWhitespace(r[|r| - 1]))
  {
    var i := SkipBlanksFrom(s, 0);
    s[i..SkipBlanksBack(s, i, |s|)]
  }

  /**
   * Stripping keeps the contiguous piece of `s` that neither starts nor ends
   * with whitespace, and everything dropped on either side is whitespace.
   */
  lemma StripDropsOnlyBlanks(s: string)
    ensures var r := Strip(s); var i := SkipBlanksFrom(s, 0);
      && i + |r| <= |s| && r == s[i..i + |r|]
      && (forall k :: 0 <= k < i ==> IsWhitespace(s[k]))
      && (forall k :: i + |r| <= k < |s| ==> IsWhitespace(s[k]))
      && (r == [] || (!IsWhitespace(r[0]) && !IsWhitespace(r[|r| - 1])))
  {
    var i := SkipBlanksFrom(s, 0);
    var e := SkipBlanksBack(s, i, |s|);
    SkipBlanksFromSkipsBlanks(s, 0);
    SkipBlanksBackSkipsBlanks(s, i, |s|);
    if i < e {
      assert s[i..e][0] == s[i] && s[i..e][e - i - 1] == s[e - 1];
    }
  }

  /** Everything `SkipBlanksFrom` crosses in a string of blanks: it reaches the end. */
  lemma {:induction false} SkipBlanksFromAllBlank(s: string, i: nat)
    requires i <= |s|
    requires forall k :: i <= k < |s| ==> IsWhitespace(s[k])
    ensures SkipBlanksFrom(s, i) == |s|
    decreases |s| - i
  {
    if i < |s| {
      SkipBlanksFromAllBlank(s, i + 1);
    }
  }

  /** A string made only of whitespace strips to "". */
  lemma StripAllBlank(s: string)
    requires forall k :: 0 <= k < |s| ==> IsWhitespace(s[k])
    ensures Strip(s) == []
  {
    SkipBlanksFromAllBlank(s, 0);
  }

  /** Stripping adds no character. */
  lemma StripKeepsCharacters(s: string)
    ensures forall c :: c in Strip(s) ==> c in s
  {
    var i := SkipBlanksFrom(s, 0);
    var r := Strip(s);
    forall c | c in r
      ensures c in s
    {
      var k :| 0 <= k < |r| && r[k] == c;
      assert s[i + k] == c;
    }
  }

  /** Stripping twice is stripping once. */
  lemma StripIdempotent(s: string)
    ensures Strip(Strip(s)) == Strip(s)
  {
    var i := SkipBlanksFrom(s, 0);
    var e := SkipBlanksBack(s, i, |s|);
    var r := s[i..e];
    if r != [] {
      assert r[0] == s[i] && r[|r| - 1] == s[e - 1];
      assert SkipBlanksFrom(r, 0) == 0;
      assert SkipBlanksBack(r, 0, |r|) == |r|;
    }
  }

  /** `value.split(sep)`: the pieces between the separators, from left to right. */
  function Split(s: string, sep: char): (parts: seq<string>)
    ensures |parts| == Count(s, sep) + 1
    ensures forall p :: p in parts ==> sep !in p
  {
    if s == [] then [""]
    else
      var rest := Split(s[1..], sep);
      if s[0] == sep then [""] + rest
      else
        assert forall p :: p in rest[1..] ==> p in rest;
        [[s[0]] + rest[0]] + rest[1..]
  }

  /** `sep.join(parts)`, the inverse of `Split`. */
  function Join(parts: seq<string>, sep: char): string
    requires |parts| >= 1
  {
    if |parts| == 1 then parts[0] else parts[0] + [sep] + Join(parts[1..], sep)
  }

  /** Prefixing the first piece with a character prefixes the joined string with it. */
  lemma JoinExtendFirst(c: char, rest: seq<string>, sep: char)
    requires |rest| >= 1
    ensures Join([[c] + rest[0]] + rest[1..], sep) == [c] + Join(rest, sep)
  {
    var parts := [[c] + rest[0]] + rest[1..];
    if |rest| == 1 {
      assert parts == [[c] + rest[0]];
    } else {
      assert parts[1..] == rest[1..];
      assert Join(parts, sep) == ([c] + rest[0]) + [sep] + Join(rest[1..], sep);
      assert Join(rest, sep) == rest[0] + [sep] + Join(rest[1..], sep);
    }
  }

  /** Joining the pieces with the separator gives back the original string. */
  lemma {:induction false} JoinSplit(s: string, sep: char)
    ensures Join(Split(s, sep), sep) == s
  {
    if s != [] {
      var rest := Split(s[1..], sep);
      JoinSplit(s[1..], sep);
      if s[0] == sep {
        assert Split(s, sep) == [""] + rest;
        assert ([""] + rest)[1..] == rest;
        assert s == [sep] + s[1..];
      } else {
        JoinExtendFirst(s[0], rest, sep);
        assert s == [s[0]] + s[1..];
      }
    }
  }

  /** `[p.strip() for p in parts]`. */
  function StripEach(parts: seq<string>): (r: seq<string>)
    ensures |r| == |parts|
    ensures forall k :: 0 <= k < |parts| ==> r[k] == Strip(parts[k])
  {
    seq(|parts|, k requires 0 <= k < |parts| => Strip(parts[k]))
  }

  /** `[p for p in parts if p]`. */
  function KeepNonEmpty(parts: seq<string>): (r: seq<string>)
    ensures |r| == |parts| - Count(parts, [])
    ensures forall p :: p in r <==> p in parts && p != []
  {
    if parts == [] then []
    else if parts[0] == [] then KeepNonEmpty(parts[1..])
    else [parts[0]] + KeepNonEmpty(parts[1..])
  }

  /** Every non-empty piece is kept as often as it occurs. */
  lemma {:induction false} KeepNonEmptyCount(parts: seq<string>, p: string)
    requires p != []
    ensures Count(KeepNonEmpty(parts), p) == Count(parts, p)
  {
    if parts != [] {
      KeepNonEmptyCount(parts[1..], p);
      if parts[0] != [] {
        assert ([parts[0]] + KeepNonEmpty(parts[1..]))[1..] == KeepNonEmpty(parts[1..]);
      }
    }
  }

  lemma {:induction false} KeepNonEmptyIsSubsequence(parts: seq<string>)
    ensures IsSubsequence(KeepNonEmpty(parts), parts)
  {
    if parts != [] {
      KeepNonEmptyIsSubsequence(parts[1..]);
      if parts[0] == [] {
        SubsequenceOfLonger(KeepNonEmpty(parts[1..]), parts[0], parts[1..]);
        assert [parts[0]] + parts[1..] == parts;
      } else {
        var r := KeepNonEmpty(parts);
        assert r[0] == parts[0] && r[1..] == KeepNonEmpty(parts[1..]);
      }
    }
  }

  /** `parse_categories`: the non-blank '|'-separated pieces of `value`, each stripped. */
  function ParseCategories(value: string): (r: seq<string>)
    ensures value == [] ==> r == []
    ensures |r| <= Count(value, '|') + 1
    ensures forall c :: c in r ==> c != [] && '|' !in c && !IsWhitespace(c[0]) && !IsWhitespace(c[|c| - 1])
  {
    if value == [] then []
    else
      var pieces := Split(value, '|');
      var stripped := StripEach(pieces);
      forall k | 0 <= k < |pieces|
        ensures '|' !in stripped[k]
        ensures stripped[k] == [] || (!IsWhitespace(stripped[k][0]) && !IsWhitespace(stripped[k][|stripped[k]| - 1]))
      {
        StripDropsOnlyBlanks(pieces[k]);
        StripKeepsCharacters(pieces[k]);
        assert pieces[k] in pieces;
      }
      KeepNonEmpty(stripped)
  }

  /** The categories keep the left-to-right order of the pieces they come from. */
  lemma ParseCategoriesKeepsOrder(value: string)
    requires value != []
    ensures IsSubsequence(ParseCategories(value), StripEach(Split(value, '|')))
    ensures forall p :: p != [] ==> Count(ParseCategories(value), p) == Count(StripEach(Split(value, '|')), p)
  {
    var stripped := StripEach(Split(value, '|'));
    KeepNonEmptyIsSubsequence(stripped);
    forall p | p != []
      ensures Count(ParseCategories(value), p) == Count(stripped, p)
    {
      KeepNonEmptyCount(stripped, p);
    }
  }

  /** A CSV row: column name to cell text; a column the row lacks reads as "". */
  type Row = map<string, string>

  /** `row.get(key, '')`. */
  function Field(row: Row, key: string): (v: string)
    ensures key !in row ==> v == []
    ensures key in row ==> v == row[key]
  {
    if key in row then row[key] else ""
  }

  datatype Example = Example(source: string, target: string)

  datatype Entry = Entry(
    id: string, source: string, target: string,
    sourceLanguage: string, targetLanguage: string, level: string,
    categories: seq<string>, examples: seq<Example>)

  /** Why a row was refused, with its record number counted from 2 (the header is record 1). */
  datatype RowError = MissingId(row: int) | MissingSourceTarget(row: int)

  /** `value.strip() or fallback`. */
  function StrippedOr(value: string, fallback: string): (r: string)
    ensures Strip(value) != [] ==> r == Strip(value)
    ensures Strip(value) == [] ==> r == fallback
  {
    var v := Strip(value);
    if v == [] then fallback else v
  }

  /** The example built from one source/target column pair, when both are non-blank. */
  function ExampleFrom(row: Row, sourceKey: string, targetKey: string): (r: seq<Example>)
    ensures |r| <= 1
    ensures r != [] <==> Strip(Field(row, sourceKey)) != [] && Strip(Field(row, targetKey)) != []
    ensures r != [] ==> r[0] == Example(Strip(Field(row, sourceKey)), Strip(Field(row, targetKey)))
    ensures forall x :: x in r ==> x.source != [] && x.target != []
  {
    var s := Strip(Field(row, sourceKey));
    var t := Strip(Field(row, targetKey));
    if s != [] && t != [] then [Example(s, t)] else []
  }

  /** The checks applied to row number `number`, then the clean-up of an accepted row. */
  function ConvertRow(row: Row, number: int): (r: Result<Entry, RowError>)
    ensures Field(row, "id") == [] ==> r == Err(MissingId(number))
    ensures Field(row, "id") != [] && (Strip(Field(row, "source")) == [] || Strip(Field(row, "target")) == []) ==>
      r == Err(MissingSourceTarget(number))
    ensures r.Err? ==> r.error.row == number
    ensures r.Ok? <==>
      Field(row, "id") != [] && Strip(Field(row, "source")) != [] && Strip(Field(row, "target")) != []
    ensures r.Ok? ==>
      && Field(row, "id") != []
      && r.value.id == Strip(Field(row, "id"))
      && r.value.source == Strip(Field(row, "source")) != []
      && r.value.target == Strip(Field(row, "target")) != []
  {
    if Field(row, "id") == [] then Err(MissingId(number))
    else
      var source := Strip(Field(row, "source"));
      var target := Strip(Field(row, "target"));
      if source == [] || target == [] then Err(MissingSourceTarget(number))
      else Ok(NormalizeRow(row, source, target))
  }

  /** The entry an accepted row becomes, given its stripped source and target. */
  function NormalizeRow(row: Row, source: string, target: string): (e: Entry)
    ensures e.id == Strip(Field(row, "id")) && e.source == source && e.target == target
  {
    Entry(
      Strip(Field(row, "id")), source, target,
      StrippedOr(Field(row, "sourceLanguage"), "es-ES"),
      StrippedOr(Field(row, "targetLanguage"), "en-US"),
      StrippedOr(Field(row, "level"), "beginner"),
      ParseCategories(Strip(Field(row, "categories"))),
      ExampleFrom(row, "example1_source", "example1_target")
        + ExampleFrom(row, "example2_source", "example2_target"))
  }

  /** An accepted row is the normalised form of its stripped source and target. */
  lemma AcceptedRowNormalized(row: Row, number: int)
    requires ConvertRow(row, number).Ok?
    ensures ConvertRow(row, number).value
      == NormalizeRow(row, Strip(Field(row, "source")), Strip(Field(row, "target")))
  {
  }

  /** Blank language and level fields take 'es-ES', 'en-US' and 'beginner'. */
  lemma ConvertRowDefaults(row: Row, number: int)
    requires ConvertRow(row, number).Ok?
    ensures var e := ConvertRow(row, number).value;
      && (Strip(Field(row, "sourceLanguage")) == [] ==> e.sourceLanguage == "es-ES")
      && (Strip(Field(row, "targetLanguage")) == [] ==> e.targetLanguage == "en-US")
      && (Strip(Field(row, "level")) == [] ==> e.level == "beginner")
  {
    AcceptedRowNormalized(row, number);
  }

  /**
   * An accepted row keeps at most two examples, the first pair's before the
   * second's, each only when both of its texts are non-blank.
   */
  lemma ConvertRowExamples(row: Row, number: int)
    requires ConvertRow(row, number).Ok?
    ensures var e := ConvertRow(row, number).value;
      && e.examples == ExampleFrom(row, "example1_source", "example1_target")
                       + ExampleFrom(row, "example2_source", "example2_target")
      && |e.examples| <= 2
      && (forall x :: x in e.examples ==> x.source != [] && x.target != [])
  {
    AcceptedRowNormalized(row, number);
  }

  /** An accepted row's categories are non-blank and free of the separator. */
  lemma ConvertRowCategories(row: Row, number: int)
    requires ConvertRow(row, number).Ok?
    ensures var e := ConvertRow(row, number).value;
      && e.categories == ParseCategories(Strip(Field(row, "categories")))
      && (forall c :: c in e.categories ==> c != [] && '|' !in c)
  {
    AcceptedRowNormalized(row, number);
  }

  /** The id is tested before stripping: any id made only of blanks is accepted and stored as "". */
  lemma BlankIdAccepted(row: Row, number: int)
    requires Field(row, "id") != []
    requires forall k :: 0 <= k < |Field(row, "id")| ==> IsWhitespace(Field(row, "id")[k])
    requires Strip(Field(row, "source")) != [] && Strip(Field(row, "target")) != []
    ensures ConvertRow(row, number).Ok?
    ensures ConvertRow(row, number).value.id == ""
  {
    StripAllBlank(Field(row, "id"));
  }

  /** What the converter ends with: the entries written to the output file, or the row that stopped it. */
  datatype Conversion = Written(entries: seq<Entry>) | Failed(error: RowError)

  /** The process exit status: 0 when the file was written, 1 otherwise. */
  function ExitCode(c: Conversion): (code: int)
    ensures code == 0 <==> c.Written?
    ensures code == 0 || code == 1
  {
    if c.Written? then 0 else 1
  }

  /** `ys` holds, in order, the accepted results of `f` on the first `|ys|` rows of `xs`, numbered from 2. */
  ghost predicate ConvertedPrefix<A, B, E>(f: (A, int) -> Result<B, E>, xs: seq<A>, ys: seq<B>) {
    |ys| <= |xs| && forall k :: 0 <= k < |ys| ==> f(xs[k], k + 2) == Ok(ys[k])
  }

  lemma ConvertedPrefixExtend<A, B, E>(f: (A, int) -> Result<B, E>, xs: seq<A>, ys: seq<B>, y: B)
    requires ConvertedPrefix(f, xs, ys) && |ys| < |xs|
    requires f(xs[|ys|], |ys| + 2) == Ok(y)
    ensures ConvertedPrefix(f, xs, ys + [y])
  {
    assert forall k :: 0 <= k < |ys| ==> (ys + [y])[k] == ys[k];
  }

  /** Before the first refused row, every row was accepted. */
  lemma ConvertedPrefixAccepted<A, B, E>(f: (A, int) -> Result<B, E>, xs: seq<A>, ys: seq<B>)
    requires ConvertedPrefix(f, xs, ys)
    ensures forall j :: 0 <= j < |ys| ==> f(xs[j], j + 2).Ok?
  {
  }

  /**
   * The loop of `main` over the rows of the CSV file, numbered from 2: every
   * row converted in order, or the first refused row reported and nothing written.
   */
  method ConvertRows(rows: seq<Row>) returns (result: Conversion)
    ensures result.Written? <==> forall k :: 0 <= k < |rows| ==> ConvertRow(rows[k], k + 2).Ok?
    ensures result.Written? ==>
      |result.entries| == |rows| &&
      forall k :: 0 <= k < |rows| ==> ConvertRow(rows[k], k + 2) == Ok(result.entries[k])
    ensures result.Failed? ==>
      var k := result.error.row - 2;
      && 0 <= k < |rows|
      && ConvertRow(rows[k], k + 2) == Err(result.error)
      && forall j :: 0 <= j < k ==> ConvertRow(rows[j], j + 2).Ok?
  {
    var entries: seq<Entry> := [];
    while |entries| < |rows|
      invariant ConvertedPrefix(ConvertRow, rows, entries)
      decreases |rows| - |entries|
    {
      var converted := ConvertRow(rows[|entries|], |entries| + 2);
      if converted.Err? {
        ConvertedPrefixAccepted(ConvertRow, rows, entries);
        return Failed(converted.error);
      }
      ConvertedPrefixExtend(ConvertRow, rows, entries, converted.value);
      entries := entries + [converted.value];
    }
    return Written(entries);
  }
}
