/** The parking ticket loading step: lists the bucket's `.csv` keys, sorts them, and
    for the first two downloads the text and repairs the header's delimiter before the
    CSV reader sees it. Downloading is a parameter; CSV parsing and concatenation of the
    parsed frames are not part of this model. */
module Loader {
  import opened Wrappers
  import opened Text
  import opened Seqs
  import opened DataSources
  import opened Columns

  /** `data.split("\n")` then `lines[0]`, `lines[1]` and `"\n".join(lines[2:])`: a text
      without a newline has no second line and raises an IndexError. The result carries
      the repaired text and the delimiter chosen for it. */
  function FixDelimiter(data: string): (r: Result<(string, char)>)
    ensures r.Failure? <==> '\n' !in data
    ensures r.Failure? ==> r.error == IndexError
  {
    var lines := Split(data, '\n');
    if |lines| < 2 then
      assert data == lines[0];
      Failure(IndexError)
    else
      assert '\n' in data by {
        assert data == lines[0] + ['\n'] + Join(lines[1..], '\n');
        assert data[|lines[0]|] == '\n';
      }
      var first, second, rest := lines[0], lines[1], Join(lines[2..], '\n');
      var d := ChooseDelimiter(second);
      Success((FixHeader(first, d) + "\n" + second + "\n" + rest, d))
  }

  /** `"\n".join` of three or more lines is the first two lines, each followed by a
      newline, then the join of the rest. */
  lemma JoinFirstTwo(lines: seq<string>)
    requires |lines| >= 3
    ensures Join(lines, '\n') == lines[0] + "\n" + lines[1] + "\n" + Join(lines[2..], '\n')
  {
    assert lines[1..][1..] == lines[2..];
    assert lines[1..][0] == lines[1];
  }

  /** On a text of the shape header, newline, second line, newline, rest: the delimiter
      is chosen from the second line and only the header may change. */
  lemma FixDelimiterLines(a: string, b: string, c: string)
    requires '\n' !in a && '\n' !in b
    ensures FixDelimiter(a + "\n" + b + "\n" + c)
      == Success((FixHeader(a, ChooseDelimiter(b)) + "\n" + b + "\n" + c, ChooseDelimiter(b)))
  {
    var cs := Split(c, '\n');
    var parts := [a, b] + cs;
    assert forall i :: 0 <= i < |parts| ==> '\n' !in parts[i];
    assert parts[2..] == cs;
    JoinFirstTwo(parts);
    SplitJoin(parts, '\n');
    assert Join(parts, '\n') == a + "\n" + b + "\n" + c;
  }

  /** A text of three or more lines whose header already holds the delimiter its second
      line calls for comes back unchanged. */
  lemma FixDelimiterKeeps(data: string)
    requires |Split(data, '\n')| >= 3
    requires var lines := Split(data, '\n'); ChooseDelimiter(lines[1]) in lines[0]
    ensures FixDelimiter(data).Success? && FixDelimiter(data).value.0 == data
  {
    var lines := Split(data, '\n');
    JoinFirstTwo(lines);
  }

  /** A text of exactly two lines gains a trailing newline. */
  lemma FixDelimiterTwoLines(a: string, b: string)
    requires '\n' !in a && '\n' !in b
    ensures FixDelimiter(a + "\n" + b) == Success((FixHeader(a, ChooseDelimiter(b)) + "\n" + b + "\n", ChooseDelimiter(b)))
  {
    var parts := [a, b];
    assert Join(parts, '\n') == a + "\n" + b by {
      assert parts[1..] == [b];
    }
    SplitJoin(parts, '\n');
    assert Join(parts[2..], '\n') == [];
    var h := FixHeader(a, ChooseDelimiter(b));
    assert h + "\n" + b + "\n" + [] == h + "\n" + b + "\n";
  }

  /** One downloaded file, ready for the CSV reader. */
  datatype CsvInput = CsvInput(key: string, text: string, delimiter: char)

  function Prepare(key: string, download: string -> string): (r: Result<CsvInput>)
    ensures r.Failure? <==> FixDelimiter(download(key)).Failure?
    ensures r.Success? ==> var f := FixDelimiter(download(key)).value;
      r.value == CsvInput(key, f.0, f.1)
  {
    match FixDelimiter(download(key))
    case Failure(e) => Failure(e)
    case Success(f) => Success(CsvInput(key, f.0, f.1))
  }

  /** The bucket's `.csv` keys, sorted. */
  function SortedCsvKeys(contents: Option<seq<string>>): seq<string> {
    InsertionSort(CsvKeys(contents), LexLe)
  }

  /** The sorted listing holds the `.csv` keys, each as often as listed, in ascending order. */
  lemma SortedCsvKeysSpec(contents: Option<seq<string>>)
    ensures Sorted(SortedCsvKeys(contents), LexLe)
    ensures multiset(SortedCsvKeys(contents)) == multiset(CsvKeys(contents))
    ensures forall x :: x in SortedCsvKeys(contents) <==> contents.Some? && x in contents.value && IsCsv(x)
  {
    LexLeTotal();
    var s := SortedCsvKeys(contents);
    forall x
      ensures x in s <==> x in CsvKeys(contents)
    {
      assert x in s <==> x in multiset(s);
      assert x in CsvKeys(contents) <==> x in multiset(CsvKeys(contents));
    }
  }

  /** The files the step loads: the first two of the sorted keys, or all of them when
      fewer than two are listed. */
  function Chosen(contents: Option<seq<string>>): (r: seq<string>)
    ensures |r| == if |SortedCsvKeys(contents)| < 2 then |SortedCsvKeys(contents)| else 2
    ensures r <= SortedCsvKeys(contents)
  {
    var keys := SortedCsvKeys(contents);
    keys[..if |keys| < 2 then |keys| else 2]
  }

  /** The per-file work of the loop. */
  function PrepareWith(download: string -> string): string -> Result<CsvInput> {
    (key: string) => Prepare(key, download)
  }

  /** What the step hands to the CSV reader, or the error it raises: an IndexError from
      the first file without a newline, or a ValueError from concatenating no frames. */
  function LoadedInputs(contents: Option<seq<string>>, download: string -> string): (r: Result<seq<CsvInput>>)
    ensures r.Failure? <==> Chosen(contents) == [] || exists i :: 0 <= i < |Chosen(contents)| && Prepare(Chosen(contents)[i], download).Failure?
    ensures r.Success? ==> (|r.value| == |Chosen(contents)|
      && forall i :: 0 <= i < |r.value| ==> Prepare(Chosen(contents)[i], download) == Success(r.value[i]))
  {
    var chosen := Chosen(contents);
    match MapAll(chosen, PrepareWith(download))
    case Failure(e) => Failure(e)
    case Success(inputs) => if inputs == [] then Failure(ValueError) else Success(inputs)
  }

  /** The step loads the first two of the sorted `.csv` keys, or the only one, in
      sorted order. */
  lemma LoadedInputsKeys(contents: Option<seq<string>>, download: string -> string)
    requires LoadedInputs(contents, download).Success?
    ensures var r := LoadedInputs(contents, download).value;
      && |r| == (if |SortedCsvKeys(contents)| < 2 then 1 else 2)
      && forall i :: 0 <= i < |r| ==> r[i].key == SortedCsvKeys(contents)[i]
  {
    var r := LoadedInputs(contents, download).value;
    var chosen := Chosen(contents);
    forall i | 0 <= i < |r|
      ensures r[i].key == chosen[i]
    {
      assert Prepare(chosen[i], download) == Success(r[i]);
    }
  }

  /** The first file loaded has the least key of the listing, and the second follows it. */
  lemma LoadedInputsOrder(contents: Option<seq<string>>, download: string -> string)
    requires LoadedInputs(contents, download).Success?
    ensures var r := LoadedInputs(contents, download).value;
      && (|r| == 2 ==> LexLe(r[0].key, r[1].key))
      && (forall x :: x in SortedCsvKeys(contents) ==> LexLe(r[0].key, x))
  {
    var keys := SortedCsvKeys(contents);
    LoadedInputsKeys(contents, download);
    SortedKeysSorted(contents);
    SortedFirstBelowAll(keys);
  }

  lemma SortedKeysSorted(contents: Option<seq<string>>)
    ensures Sorted(SortedCsvKeys(contents), LexLe)
  {
    LexLeTotal();
  }

  lemma SortedFirstBelowAll(keys: seq<string>)
    requires Sorted(keys, LexLe) && keys != []
    ensures forall x :: x in keys ==> LexLe(keys[0], x)
  {
    forall x | x in keys
      ensures LexLe(keys[0], x)
    {
      var j :| 0 <= j < |keys| && keys[j] == x;
      SortedFirst(keys, j);
    }
  }

  /** The first element of a sorted list of strings is below all of them. */
  lemma {:induction false} SortedFirst(keys: seq<string>, j: nat)
    requires Sorted(keys, LexLe) && j < |keys|
    ensures LexLe(keys[0], keys[j])
  {
    if j == 0 {
      LexLeRefl(keys[0]);
    } else {
      SortedFirst(keys, j - 1);
      LexLeTrans(keys[0], keys[j - 1], keys[j]);
    }
  }

  lemma {:induction false} LexLeRefl(a: string)
    ensures LexLe(a, a)
  {
    if a != [] {
      LexLeRefl(a[1..]);
    }
  }

  lemma {:induction false} LexLeTrans(a: string, b: string, c: string)
    requires LexLe(a, b) && LexLe(b, c)
    ensures LexLe(a, c)
  {
    if a != [] && b != [] && c != [] && a[0] == b[0] && b[0] == c[0] {
      LexLeTrans(a[1..], b[1..], c[1..]);
    }
  }

  /** `parkings_data_loader` up to the CSV reader: sorts the keys in place, then downloads
      and repairs the first two files one after the other. */
  method ParkingsDataLoader(contents: Option<seq<string>>, download: string -> string)
    returns (r: Result<seq<CsvInput>>)
    ensures r == LoadedInputs(contents, download)
  {
    var csvFiles := CsvKeys(contents);
    csvFiles := InsertionSort(csvFiles, LexLe);
    var chosen := csvFiles[..if |csvFiles| < 2 then |csvFiles| else 2];
    assert chosen == Chosen(contents);
    var dfs := PrepareFiles(chosen, PrepareWith(download));
    if dfs.Failure? {
      return Failure(dfs.error);
    }
    if dfs.value == [] {
      return Failure(ValueError);
    }
    r := dfs;
  }

  /** The download loop: `prepare` on the files in order, stopping at the first that raises. */
  method PrepareFiles(chosen: seq<string>, prepare: string -> Result<CsvInput>) returns (r: Result<seq<CsvInput>>)
    ensures r == MapAll(chosen, prepare)
  {
    var dfs: seq<CsvInput> := [];
    for i := 0 to |chosen|
      invariant |dfs| == i
      invariant forall k :: 0 <= k < i ==> prepare(chosen[k]) == Success(dfs[k])
    {
      var input := prepare(chosen[i]);
      if input.Failure? {
        MapAllFirstFailure(chosen, prepare, i);
        return Failure(input.error);
      }
      dfs := dfs + [input.value];
    }
    MapAllSucceeds(chosen, prepare, dfs);
    r := Success(dfs);
  }

  /** `standardize_columns`: the same in-place rewrite of the labels as
      `standardize_parking_columns`. */
  method StandardizeColumns(df: Frame) returns (r: Frame)
    modifies df
    ensures r == df && df.columns == StandardNames(old(df.columns))
  {
    r := StandardizeParkingColumns(df);
  }
}
