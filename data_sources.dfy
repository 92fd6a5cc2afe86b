/** The data sources the pipeline reads CSV files from: the local file system, whose
    loader repairs the header's delimiter, and an S3 bucket. File contents, directory
    listings and bucket listings are parameters. */
module DataSources {
  import opened Wrappers
  import opened Text
  import opened Seqs

  /** `name.endswith(".csv")`. */
  predicate IsCsv(name: string) {
    EndsWith(name, ".csv")
  }

  /** `file.readline()` on the unread text: the first line with its newline, or all the
      text when there is no newline; and what is left unread. */
  function ReadLine(s: string): (r: (string, string))
    ensures r.0 + r.1 == s
    ensures '\n' !in s ==> r.0 == s
    ensures '\n' in s ==> r.0 != [] && r.0[|r.0| - 1] == '\n' && '\n' !in r.0[..|r.0| - 1]
  {
    if '\n' in s then
      var k := IndexOf(s, '\n');
      assert s[..k + 1][..k] == s[..k];
      (s[..k + 1], s[k + 1..])
    else (s, [])
  }

  /** A line without its newline, followed by the rest, reads back as that line. */
  lemma ReadLineOf(line: string, rest: string)
    requires '\n' !in line
    ensures ReadLine(line + "\n" + rest) == (line + "\n", rest)
  {
    var s := line + "\n" + rest;
    assert s[|line|] == '\n' && s[..|line|] == line;
    IndexOfAt(s, '\n', |line|);
    assert s[..|line| + 1] == line + "\n";
  }

  /** `";" if ";" in second_line else ","`. */
  function ChooseDelimiter(second: string): (d: char)
    ensures d == ';' <==> ';' in second
    ensures d == ';' || d == ','
  {
    if ';' in second then ';' else ','
  }

  function OtherDelimiter(d: char): char {
    if d == ';' then ',' else ';'
  }

  /** The header rewrite: kept when it already holds the delimiter, otherwise the other
      delimiter replaced by it throughout. */
  function FixHeader(first: string, d: char): string {
    if d in first then first
    else if d == ';' then ReplaceChar(first, ',', ';')
    else ReplaceChar(first, ';', ',')
  }

  /** After the rewrite a header that lacked the delimiter holds none of the other one;
      a header holding the delimiter is unchanged; nothing but delimiters is touched. */
  lemma FixHeaderRules(first: string, d: char)
    requires d == ';' || d == ','
    ensures d in first ==> FixHeader(first, d) == first
    ensures d !in first ==> OtherDelimiter(d) !in FixHeader(first, d)
    ensures |FixHeader(first, d)| == |first|
    ensures forall i :: 0 <= i < |first| && first[i] != OtherDelimiter(d) ==> FixHeader(first, d)[i] == first[i]
  {
    if d !in first {
      ReplaceCharRemoves(first, OtherDelimiter(d), d);
    }
  }

  /** `LocalDataSource._fix_delimiter` on the text of the file: the first two lines are
      read with their newlines, the header is repaired, and a newline is written after
      each of the two lines as read. */
  function FixDelimiterLocal(text: string): string {
    var (first, more) := ReadLine(text);
    var (second, rest) := ReadLine(more);
    FixHeader(first, ChooseDelimiter(second)) + "\n" + second + "\n" + rest
  }

  /** A trailing newline changes neither the delimiter choice nor the header rewrite. */
  lemma NewlineKeepsDelimiter(line: string, d: char)
    requires d == ';' || d == ','
    ensures ChooseDelimiter(line + "\n") == ChooseDelimiter(line)
    ensures FixHeader(line + "\n", d) == FixHeader(line, d) + "\n"
  {
    assert ';' in line + "\n" <==> ';' in line;
    assert d in line + "\n" <==> d in line;
    if d !in line {
      var o := OtherDelimiter(d);
      assert ReplaceChar(line + "\n", o, d) == ReplaceChar(line, o, d) + "\n";
    }
  }

  /** Because `readline` keeps each line's newline, the repaired text has an empty line
      after each of the first two lines; the lines themselves and the rest are kept. */
  lemma FixDelimiterLocalLines(a: string, b: string, c: string)
    requires '\n' !in a && '\n' !in b
    ensures FixDelimiterLocal(a + "\n" + b + "\n" + c)
      == FixHeader(a, ChooseDelimiter(b)) + "\n" + "\n" + b + "\n" + "\n" + c
  {
    var text := a + "\n" + b + "\n" + c;
    var more := b + "\n" + c;
    assert text == a + "\n" + more;
    ReadLineOf(a, more);
    ReadLineOf(b, c);
    var d := ChooseDelimiter(b);
    NewlineKeepsDelimiter(b, d);
    NewlineKeepsDelimiter(a, d);
    var h := FixHeader(a, d);
    assert FixDelimiterLocal(text) == (h + "\n") + "\n" + (b + "\n") + "\n" + c;
    DoubledNewlines(h, b, c);
  }

  /** The regrouping of the repaired text's pieces. */
  lemma DoubledNewlines(h: string, b: string, c: string)
    ensures (h + "\n") + "\n" + (b + "\n") + "\n" + c == h + "\n" + "\n" + b + "\n" + "\n" + c
  {
    assert (h + "\n" + "\n") + (b + "\n") == h + "\n" + "\n" + b + "\n";
  }

  /** The buffer or path `load_csv` hands to `read_csv`. */
  datatype CsvSource = Buffer(text: string) | FilePath(path: string)

  /** `LocalDataSource.load_csv`: the delimiter is repaired only for UTF-8 files. */
  function LoadCsvSource(filePath: string, encoding: string, readFile: string -> string): (r: CsvSource)
    ensures r.Buffer? <==> encoding == "UTF-8"
    ensures r.Buffer? ==> r.text == FixDelimiterLocal(readFile(filePath))
    ensures r.FilePath? ==> r.path == filePath
  {
    if encoding == "UTF-8" then Buffer(FixDelimiterLocal(readFile(filePath))) else FilePath(filePath)
  }

  /** `os.path.join(path, file)` on POSIX. */
  function JoinPath(path: string, file: string): string {
    if file != [] && file[0] == '/' then file
    else if path == [] || path[|path| - 1] == '/' then path + file
    else path + "/" + file
  }

  /** `LocalDataSource.list_csv_files`: the directory entries ending in `.csv`, in
      listing order, each joined to the directory. */
  function ListLocalCsv(path: string, entries: seq<string>): (r: seq<string>)
    ensures forall x :: x in r <==> exists i :: 0 <= i < |entries| && IsCsv(entries[i]) && x == JoinPath(path, entries[i])
  {
    if entries == [] then []
    else
      var tail := ListLocalCsv(path, entries[1..]);
      assert forall i :: 1 <= i < |entries| ==> entries[1..][i - 1] == entries[i];
      assert forall i :: 0 <= i < |entries| - 1 ==> entries[1..][i] == entries[i + 1];
      (if IsCsv(entries[0]) then [JoinPath(path, entries[0])] else []) + tail
  }

  /** The `.csv` keys of a `list_objects_v2` response; a response without `Contents`
      lists none. */
  function CsvKeys(contents: Option<seq<string>>): (r: seq<string>)
    ensures contents.None? ==> r == []
    ensures forall x :: x in r <==> contents.Some? && x in contents.value && IsCsv(x)
  {
    if contents.None? then [] else Filter(contents.value, IsCsv)
  }

  /** The bucket listing keeps the `.csv` keys in the order S3 lists them. */
  lemma CsvKeysInOrder(contents: seq<string>)
    ensures CsvKeys(Some(contents)) == Filter(contents, IsCsv)
    ensures |CsvKeys(Some(contents))| <= |contents|
  {
  }

  /** The listing keeps the order and the repetitions of the directory entries: it is
      the `.csv` entries, filtered in place, each joined to the directory. */
  lemma {:induction false} ListLocalCsvInOrder(path: string, entries: seq<string>)
    ensures var kept := Filter(entries, IsCsv);
      ListLocalCsv(path, entries) == seq(|kept|, i requires 0 <= i < |kept| => JoinPath(path, kept[i]))
  {
    if entries != [] {
      ListLocalCsvInOrder(path, entries[1..]);
    }
  }

  /** `S3DataSource`: a bucket; the S3 client itself is a parameter of its operations. */
  class S3DataSource {
    const bucketName: string

    constructor(bucketName: string)
      ensures this.bucketName == bucketName
    {
      this.bucketName := bucketName;
    }

    /** `list_csv_files`: the `.csv` keys under `path` in this bucket. */
    function ListCsvFiles(path: string, listObjects: (string, string) -> Option<seq<string>>): (r: seq<string>)
      ensures forall x :: x in r <==>
        listObjects(bucketName, path).Some? && x in listObjects(bucketName, path).value && IsCsv(x)
    {
      CsvKeys(listObjects(bucketName, path))
    }
  }
}
