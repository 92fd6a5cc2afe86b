/** The two preprocessing steps of the feature-engineering pipeline:
    `parkings_data_preprocessor` (validity filter, neighbourhood names and ids) and
    `spaces_data_preprocessor` (parking capacity per neighbourhood and colour). */
module Preprocessor {
  import opened Wrappers
  import opened Text
  import opened Decimal
  import opened Calendar
  import opened Seqs

  /** A row of the raw ticket table, with `fecha_inicio`/`fecha_fin` already parsed. */
  datatype RawTicket = RawTicket(
    start: Timestamp, end: Timestamp, barrio: string,
    codigoDistrito: nat, codigoBarrio: nat, tipoZona: string)

  /** A row of the cleaned ticket table `ser_df`; `barrioId` is `None` where pandas
      would hold NaN (a name missing from the name-to-id map). */
  datatype ParkingTicket = ParkingTicket(
    start: Timestamp, end: Timestamp, barrio: string,
    codigoDistrito: nat, codigoBarrio: nat, tipoZona: string, barrioId: Option<int>)

  // ---------------------------------------------------------------- validity

  predicate FromYear2020(t: RawTicket) { Year(t.start) >= 2020 }
  predicate StartsBeforeEnd(t: RawTicket) { t.start < t.end }

  predicate IsValid(t: RawTicket) { Year(t.start) >= 2020 && t.start < t.end }

  /** The two successive validity masks: a ticket survives exactly when it starts in
      2020 or later and strictly before it ends. */
  function ValidTickets(raw: seq<RawTicket>): (valid: seq<RawTicket>)
    ensures |valid| <= |raw|
    ensures forall t :: t in valid <==> t in raw && IsValid(t)
  {
    Filter(Filter(raw, FromYear2020), StartsBeforeEnd)
  }

  // ---------------------------------------------------------------- neighbourhood codes

  /** `int(str(distrito) + f"{barrio:02}")`. */
  function BarrioId(distrito: nat, barrio: nat): int {
    Parse(Show(distrito) + Pad2(barrio))
  }

  /** For a barrio number below 100 the id is `distrito * 100 + barrio`. */
  lemma BarrioIdValue(distrito: nat, barrio: nat)
    requires barrio < 100
    ensures BarrioId(distrito, barrio) == distrito * 100 + barrio
  {
    Pad2Value(barrio);
    ParseShow(distrito);
    ParseAppend(Show(distrito), Pad2(barrio));
  }

  /** `f"{distrito:02}" + "-" + f"{barrio:02}"`. */
  function CodigoCombinado(distrito: nat, barrio: nat): string {
    Pad2(distrito) + "-" + Pad2(barrio)
  }

  /** For numbers below 100 the combined code is `DD-DD`, and each half reads back. */
  lemma CodigoCombinadoShape(distrito: nat, barrio: nat)
    requires distrito < 100 && barrio < 100
    ensures var c := CodigoCombinado(distrito, barrio);
      && |c| == 5 && c[2] == '-'
      && AllDigits(c[..2]) && Parse(c[..2]) == distrito
      && AllDigits(c[3..]) && Parse(c[3..]) == barrio
  {
    Pad2Value(distrito);
    Pad2Value(barrio);
    var c := CodigoCombinado(distrito, barrio);
    assert c[..2] == Pad2(distrito);
    assert c[3..] == Pad2(barrio);
  }

  // ---------------------------------------------------------------- names

  /** `str.contains(r"^\d")`. */
  predicate StartsWithDigit(s: string) {
    s != [] && IsDigit(s[0])
  }

  /** A row of `barrio_df`. */
  datatype BarrioEntry = BarrioEntry(barrio: string, barrioId: int, codigoCombinado: string)

  /** The (name, district, barrio) triple of a ticket. */
  function TripleOf(t: RawTicket): (string, nat, nat) {
    (t.barrio, t.codigoDistrito, t.codigoBarrio)
  }

  /** The `barrio_df` row of a triple, before the name is cleaned. */
  function EntryOfTriple(x: (string, nat, nat)): BarrioEntry {
    BarrioEntry(x.0, BarrioId(x.1, x.2), CodigoCombinado(x.1, x.2))
  }

  /** The name stripped and transliterated. */
  function CleanEntry(e: BarrioEntry, unidecode: string -> string): BarrioEntry {
    e.(barrio := unidecode(Strip(e.barrio)))
  }

  /** `barrio_non_number_df`: the distinct triples of the tickets whose name does not
      start with a digit. */
  function NamedTriples(rows: seq<RawTicket>): (triples: seq<(string, nat, nat)>)
    ensures forall t :: t in rows && !StartsWithDigit(t.barrio) ==> TripleOf(t) in triples
    ensures forall x :: x in triples ==> exists t :: t in rows && !StartsWithDigit(t.barrio) && x == TripleOf(t)
  {
    var named := Filter(rows, (t: RawTicket) => !StartsWithDigit(t.barrio));
    var all := seq(|named|, i requires 0 <= i < |named| => TripleOf(named[i]));
    forall t | t in rows && !StartsWithDigit(t.barrio) ensures TripleOf(t) in all {
      var i :| 0 <= i < |rows| && rows[i] == t;
      var k :| 0 <= k < |named| && named[k] == t;
      assert all[k] == TripleOf(t);
    }
    forall x | x in all ensures exists t :: t in rows && !StartsWithDigit(t.barrio) && x == TripleOf(t) {
      var k :| 0 <= k < |all| && all[k] == x;
      assert named[k] in rows;
    }
    Dedup(all)
  }

  /** The distinct (name, id, code) rows built from the triples. */
  function TripleEntries(triples: seq<(string, nat, nat)>): (entries: seq<BarrioEntry>)
    ensures forall x :: x in triples ==> EntryOfTriple(x) in entries
    ensures forall e :: e in entries ==> exists x :: x in triples && e == EntryOfTriple(x)
  {
    var all := seq(|triples|, i requires 0 <= i < |triples| => EntryOfTriple(triples[i]));
    forall x | x in triples ensures EntryOfTriple(x) in all {
      var k :| 0 <= k < |triples| && triples[k] == x;
      assert all[k] == EntryOfTriple(x);
    }
    forall e | e in all ensures exists x :: x in triples && e == EntryOfTriple(x) {
      var k :| 0 <= k < |all| && all[k] == e;
      assert triples[k] in triples;
    }
    Dedup(all)
  }

  /** `barrio_df`: from the rows whose name does not start with a digit, the distinct
      (name, district, barrio) triples, then the distinct (name, id, code) rows, then
      each name stripped and transliterated. */
  function BarrioTable(rows: seq<RawTicket>, unidecode: string -> string): (table: seq<BarrioEntry>)
  {
    var entries := TripleEntries(NamedTriples(rows));
    seq(|entries|, i requires 0 <= i < |entries| => CleanEntry(entries[i], unidecode))
  }

  /** The `barrio_df` row a ticket with a name contributes. */
  function EntryOf(t: RawTicket, unidecode: string -> string): BarrioEntry {
    CleanEntry(EntryOfTriple(TripleOf(t)), unidecode)
  }

  /** `barrio_df` holds the entry of every ticket whose name does not start with a
      digit. */
  lemma BarrioTableComplete(rows: seq<RawTicket>, unidecode: string -> string, t: RawTicket)
    requires t in rows && !StartsWithDigit(t.barrio)
    ensures EntryOf(t, unidecode) in BarrioTable(rows, unidecode)
  {
    var entries := TripleEntries(NamedTriples(rows));
    assert TripleOf(t) in NamedTriples(rows);
    var m :| 0 <= m < |entries| && entries[m] == EntryOfTriple(TripleOf(t));
    assert BarrioTable(rows, unidecode)[m] == EntryOf(t, unidecode);
  }

  /** Every `barrio_df` row is the entry of a ticket whose name does not start with a
      digit. */
  lemma BarrioTableSound(rows: seq<RawTicket>, unidecode: string -> string, m: nat)
    requires m < |BarrioTable(rows, unidecode)|
    ensures exists t :: t in rows && !StartsWithDigit(t.barrio) && BarrioTable(rows, unidecode)[m] == EntryOf(t, unidecode)
  {
    var triples := NamedTriples(rows);
    var entries := TripleEntries(triples);
    assert entries[m] in entries;
    var x :| x in triples && entries[m] == EntryOfTriple(x);
    var t :| t in rows && !StartsWithDigit(t.barrio) && x == TripleOf(t);
    assert BarrioTable(rows, unidecode)[m] == EntryOf(t, unidecode);
  }

  /** `barrio_df.set_index("barrio")["barrio_id"].to_dict()`: later rows overwrite
      earlier ones with the same name. */
  function BarrioToId(table: seq<BarrioEntry>): map<string, int> {
    ToDict(table, (e: BarrioEntry) => e.barrio, (e: BarrioEntry) => e.barrioId)
  }

  /** Every name of the table has an id; the id is that of the last row with the name. */
  lemma BarrioToIdLastWins(table: seq<BarrioEntry>, i: nat)
    requires i < |table|
    requires forall j :: i < j < |table| ==> table[j].barrio != table[i].barrio
    ensures table[i].barrio in BarrioToId(table)
    ensures BarrioToId(table)[table[i].barrio] == table[i].barrioId
  {
    ToDictLastWins(table, (e: BarrioEntry) => e.barrio, (e: BarrioEntry) => e.barrioId, i);
  }

  /** The first row of the table whose combined code is `code`, if any. */
  function FirstMatch(table: seq<BarrioEntry>, code: string): (r: Option<string>)
    ensures r.None? <==> forall i :: 0 <= i < |table| ==> table[i].codigoCombinado != code
    ensures r.Some? ==> exists i :: (0 <= i < |table| && table[i].codigoCombinado == code
      && r.value == table[i].barrio && forall j :: 0 <= j < i ==> table[j].codigoCombinado != code)
  {
    if table == [] then None
    else if table[0].codigoCombinado == code then Some(table[0].barrio)
    else
      var r := FirstMatch(table[1..], code);
      assert forall j :: 0 <= j < |table| - 1 ==> table[1..][j] == table[j + 1];
      r
  }

  /** `clean_barrio`: a name starting with a digit is a combined code, replaced by the
      name of the first `barrio_df` row with that code (IndexError when there is none);
      any other name is stripped and transliterated. An empty name fails on `text[0]`. */
  function CleanBarrio(text: string, table: seq<BarrioEntry>, unidecode: string -> string): (r: Result<string>)
    ensures text == [] ==> r == Failure(IndexError)
    ensures text != [] && !IsDigit(text[0]) ==> r == Success(unidecode(Strip(text)))
    ensures text != [] && IsDigit(text[0]) ==>
      (r.Success? <==> exists i :: 0 <= i < |table| && table[i].codigoCombinado == text)
    ensures text != [] && IsDigit(text[0]) && r.Success? ==>
      exists i :: 0 <= i < |table| && table[i].codigoCombinado == text && r.value == table[i].barrio
        && (forall j :: 0 <= j < i ==> table[j].codigoCombinado != text)
    ensures r.Failure? ==> r.error == IndexError
  {
    if text == [] then Failure(IndexError)
    else if IsDigit(text[0]) then
      match FirstMatch(table, text)
      case None => Failure(IndexError)
      case Some(name) => Success(name)
    else Success(unidecode(Strip(text)))
  }

  /** Names of the three test installations, whose tickets are dropped. */
  const TestBarrios: set<string> := {"ELO MONITORIZACION 1", "TALLER DEVAS", "TEST PARKARE"}

  /** `ser_df["barrio"].progress_apply(clean_barrio)`. */
  function CleanAll(rows: seq<RawTicket>, table: seq<BarrioEntry>, unidecode: string -> string): Result<seq<string>> {
    MapAll(rows, (t: RawTicket) => CleanBarrio(t.barrio, table, unidecode))
  }

  /** The cleaned row: its name cleaned, its id looked up by that name, and only then
      `PILAR` renamed `EL PILAR`. */
  function Label(t: RawTicket, name: string, ids: map<string, int>): ParkingTicket {
    ParkingTicket(t.start, t.end, if name == "PILAR" then "EL PILAR" else name,
      t.codigoDistrito, t.codigoBarrio, t.tipoZona,
      if name in ids then Some(ids[name]) else None)
  }

  predicate KeptBarrio(t: ParkingTicket) { t.barrio !in TestBarrios }

  /** Every row labelled with its cleaned name. */
  function LabelAll(rows: seq<RawTicket>, names: seq<string>, ids: map<string, int>): (r: seq<ParkingTicket>)
    requires |names| == |rows|
    ensures |r| == |rows| && forall i :: 0 <= i < |rows| ==> r[i] == Label(rows[i], names[i], ids)
  {
    seq(|rows|, i requires 0 <= i < |rows| => Label(rows[i], names[i], ids))
  }

  /** `parkings_data_preprocessor` on already-parsed timestamps. */
  function ParkingsDataPreprocessor(raw: seq<RawTicket>, unidecode: string -> string): (r: Result<seq<ParkingTicket>>)
    ensures r.Failure? <==> exists i :: (0 <= i < |ValidTickets(raw)| &&
      CleanBarrio(ValidTickets(raw)[i].barrio, BarrioTable(ValidTickets(raw), unidecode), unidecode).Failure?)
    ensures r.Failure? ==> r.error == IndexError
    ensures r.Success? ==> forall t :: t in r.value ==> t.barrio !in TestBarrios
  {
    var serDf := ValidTickets(raw);
    var table := BarrioTable(serDf, unidecode);
    match CleanAll(serDf, table, unidecode)
    case Failure(e) => Failure(e)
    case Success(names) => Success(Filter(LabelAll(serDf, names, BarrioToId(table)), KeptBarrio))
  }

  /** Each cleaned row comes from a valid raw row: same times, districts and zone,
      the cleaned name (with `PILAR` renamed) and the id of the cleaned name. */
  lemma PreprocessedRows(raw: seq<RawTicket>, unidecode: string -> string, k: nat)
    requires ParkingsDataPreprocessor(raw, unidecode).Success?
    requires k < |ParkingsDataPreprocessor(raw, unidecode).value|
    ensures var t := ParkingsDataPreprocessor(raw, unidecode).value[k];
      var table := BarrioTable(ValidTickets(raw), unidecode);
      exists i :: 0 <= i < |ValidTickets(raw)| &&
        var v := ValidTickets(raw)[i];
        && CleanBarrio(v.barrio, table, unidecode).Success?
        && t == Label(v, CleanBarrio(v.barrio, table, unidecode).value, BarrioToId(table))
    ensures var t := ParkingsDataPreprocessor(raw, unidecode).value[k];
      Year(t.start) >= 2020 && t.start < t.end && t.barrio !in TestBarrios && t.barrio != "PILAR"
  {
    var i := PreprocessedRowOrigin(raw, unidecode, k);
    var v := ValidTickets(raw)[i];
    assert v in ValidTickets(raw);
  }

  /** The output is exactly the valid rows, each labelled with its cleaned name, in
      their order, with the test installations masked out. */
  lemma PreprocessedLabelling(raw: seq<RawTicket>, unidecode: string -> string) returns (labelled: seq<ParkingTicket>)
    requires ParkingsDataPreprocessor(raw, unidecode).Success?
    ensures var valid := ValidTickets(raw);
      var table := BarrioTable(valid, unidecode);
      && |labelled| == |valid|
      && (forall i :: 0 <= i < |valid| ==>
            && CleanBarrio(valid[i].barrio, table, unidecode).Success?
            && labelled[i] == Label(valid[i], CleanBarrio(valid[i].barrio, table, unidecode).value, BarrioToId(table)))
      && ParkingsDataPreprocessor(raw, unidecode).value == Filter(labelled, KeptBarrio)
  {
    var valid := ValidTickets(raw);
    var table := BarrioTable(valid, unidecode);
    var names := CleanAll(valid, table, unidecode).value;
    labelled := LabelAll(valid, names, BarrioToId(table));
  }

  /** No valid row is lost: every valid row whose cleaned name is not a test
      installation is in the output. */
  lemma PreprocessedComplete(raw: seq<RawTicket>, unidecode: string -> string, i: nat)
    requires ParkingsDataPreprocessor(raw, unidecode).Success?
    requires i < |ValidTickets(raw)|
    ensures var v := ValidTickets(raw)[i];
      var table := BarrioTable(ValidTickets(raw), unidecode);
      var name := CleanBarrio(v.barrio, table, unidecode);
      && name.Success?
      && (KeptBarrio(Label(v, name.value, BarrioToId(table))) ==>
            Label(v, name.value, BarrioToId(table)) in ParkingsDataPreprocessor(raw, unidecode).value)
  {
    var labelled := PreprocessedLabelling(raw, unidecode);
  }

  /** The valid row a cleaned row is made from. */
  lemma PreprocessedRowOrigin(raw: seq<RawTicket>, unidecode: string -> string, k: nat) returns (i: nat)
    requires ParkingsDataPreprocessor(raw, unidecode).Success?
    requires k < |ParkingsDataPreprocessor(raw, unidecode).value|
    ensures var t := ParkingsDataPreprocessor(raw, unidecode).value[k];
      var table := BarrioTable(ValidTickets(raw), unidecode);
      && i < |ValidTickets(raw)|
      && var v := ValidTickets(raw)[i];
      && CleanBarrio(v.barrio, table, unidecode).Success?
      && t == Label(v, CleanBarrio(v.barrio, table, unidecode).value, BarrioToId(table))
      && t.barrio !in TestBarrios
  {
    var serDf := ValidTickets(raw);
    var table := BarrioTable(serDf, unidecode);
    var names := CleanAll(serDf, table, unidecode).value;
    var labelled := LabelAll(serDf, names, BarrioToId(table));
    var t := ParkingsDataPreprocessor(raw, unidecode).value[k];
    assert t in labelled;
    i :| 0 <= i < |labelled| && labelled[i] == t;
  }

  // ---------------------------------------------------------------- capacities

  /** A row of the raw parking-spaces table. */
  datatype SpaceRow = SpaceRow(barrio: string, color: string, numPlazas: int)

  const AzulColor: string := "043000255 Azul"
  const VerdeColor: string := "077214010 Verde"

  /** The space row's text `DD-DD` matches the pattern at `i`. */
  predicate CodeAt(s: string, i: nat) {
    i + 5 <= |s| && IsDigit(s[i]) && IsDigit(s[i + 1]) && s[i + 2] == '-' && IsDigit(s[i + 3]) && IsDigit(s[i + 4])
  }

  /** Leftmost position at or after `from` where `\d{2}-\d{2}` matches. */
  function FindCode(s: string, from: nat): (r: Option<nat>)
    requires from <= |s|
    ensures r.Some? ==> from <= r.value && CodeAt(s, r.value) && forall j :: from <= j < r.value ==> !CodeAt(s, j)
    ensures r.None? ==> forall j :: from <= j <= |s| ==> !CodeAt(s, j)
    decreases |s| - from
  {
    if from + 5 > |s| then None
    else if CodeAt(s, from) then Some(from)
    else FindCode(s, from + 1)
  }

  /** `str.extract(r"(\d{2})-(\d{2})")` joined into one number: the two digit pairs of
      the first `DD-DD`; a text without one gives NaN, which `astype(int)` rejects. */
  function SpacesBarrioId(s: string): (r: Result<int>)
    ensures r.Failure? <==> forall j :: 0 <= j <= |s| ==> !CodeAt(s, j)
    ensures r.Failure? ==> r.error == ValueError
    ensures r.Success? ==> exists i: nat ::
      && CodeAt(s, i) && (forall j :: 0 <= j < i ==> !CodeAt(s, j))
      && AllDigits(s[i..i + 2] + s[i + 3..i + 5]) && r.value == Parse(s[i..i + 2] + s[i + 3..i + 5])
  {
    match FindCode(s, 0)
    case None => Failure(ValueError)
    case Some(i) => Success(Parse(s[i..i + 2] + s[i + 3..i + 5]))
  }

  /** The id read from a spaces row that starts with the ticket table's combined code
      is the ticket table's `barrio_id`: the two tables agree on neighbourhood ids. */
  lemma SpacesIdMatchesTicketId(distrito: nat, barrio: nat, rest: string)
    requires distrito < 100 && barrio < 100
    ensures SpacesBarrioId(CodigoCombinado(distrito, barrio) + rest) == Success(BarrioId(distrito, barrio))
  {
    CodigoCombinadoPrefixId(distrito, barrio, rest);
    PadPairValue(distrito, barrio);
    BarrioIdValue(distrito, barrio);
  }

  /** The id read from a text that opens with a combined code is the number its two
      padded halves spell. */
  lemma CodigoCombinadoPrefixId(distrito: nat, barrio: nat, rest: string)
    requires distrito < 100 && barrio < 100
    ensures SpacesBarrioId(CodigoCombinado(distrito, barrio) + rest) == Success(Parse(Pad2(distrito) + Pad2(barrio)))
  {
    var s := CodigoCombinado(distrito, barrio) + rest;
    CodigoCombinadoPrefix(distrito, barrio, rest);
    SpacesBarrioIdFirstMatch(s, 0);
  }

  /** A text that opens with a combined code matches the pattern at its start. */
  lemma CodigoCombinadoPrefix(distrito: nat, barrio: nat, rest: string)
    requires distrito < 100 && barrio < 100
    ensures var s := CodigoCombinado(distrito, barrio) + rest;
      CodeAt(s, 0) && s[0..2] + s[3..5] == Pad2(distrito) + Pad2(barrio)
  {
    var c := CodigoCombinado(distrito, barrio);
    var s := c + rest;
    CodigoCombinadoShape(distrito, barrio);
    assert s[..5] == c;
    assert c[..2] == Pad2(distrito) && c[3..] == Pad2(barrio);
  }

  /** The id is read from the leftmost `DD-DD` of the text, wherever it stands. */
  lemma SpacesBarrioIdFirstMatch(s: string, i: nat)
    requires CodeAt(s, i) && forall j :: 0 <= j < i ==> !CodeAt(s, j)
    ensures AllDigits(s[i..i + 2] + s[i + 3..i + 5])
    ensures SpacesBarrioId(s) == Success(Parse(s[i..i + 2] + s[i + 3..i + 5]))
  {
    var f := FindCode(s, 0);
    assert f.Some?;
    assert !(f.value < i);
    assert f.value == i;
  }

  /** Two padded pairs read as one four-digit number. */
  lemma PadPairValue(distrito: nat, barrio: nat)
    requires distrito < 100 && barrio < 100
    ensures AllDigits(Pad2(distrito) + Pad2(barrio))
    ensures Parse(Pad2(distrito) + Pad2(barrio)) == distrito * 100 + barrio
  {
    Pad2Value(distrito);
    Pad2Value(barrio);
    ParseAppend(Pad2(distrito), Pad2(barrio));
  }

  /** `unidecode(" ".join(x.split()[1:]))`, then `CARMENES` renamed `LOS CARMENES`. */
  function SpacesBarrioName(s: string, unidecode: string -> string): string {
    var words := Words(s);
    var name := unidecode(JoinSpace(if words == [] then [] else words[1..]));
    if name == "CARMENES" then "LOS CARMENES" else name
  }

  /** The name drops the leading code word and keeps the rest word for word. */
  lemma SpacesBarrioNameDropsCode(code: string, words: seq<string>, unidecode: string -> string)
    requires IsWord(code)
    requires forall i :: 0 <= i < |words| ==> IsWord(words[i])
    requires unidecode(JoinSpace(words)) != "CARMENES"
    ensures SpacesBarrioName(JoinSpace([code] + words), unidecode) == unidecode(JoinSpace(words))
  {
    var all := [code] + words;
    assert forall i :: 0 <= i < |all| ==> IsWord(all[i]);
    WordsJoinSpace(all);
    assert all[1..] == words;
  }

  /** A spaces row with its id and display name resolved. */
  datatype LabelledSpace = LabelledSpace(barrio: string, barrioId: int, color: string, numPlazas: int)

  /** A row of `spaces_grouped_df`. */
  datatype SpacesGroup = SpacesGroup(
    barrio: string, barrioId: int, numPlazas: int, numPlazasAzules: int, numPlazasVerdes: int)

  /** The group key order of `groupby`/`pivot`: by name, then by id. */
  predicate KeyLe(a: (string, int), b: (string, int)) {
    (LexLe(a.0, b.0) && a.0 != b.0) || (a.0 == b.0 && a.1 <= b.1)
  }

  lemma KeyLeTotal()
    ensures Total(KeyLe)
  {
    forall a: (string, int), b: (string, int) ensures KeyLe(a, b) || KeyLe(b, a) {
      LexLeTotalAt(a.0, b.0);
    }
  }

  /** Sum of `numPlazas` over the rows of one (name, id, colour) group; 0 for an empty
      group (the `fillna(0)` of the pivot). */
  function SumPlazas(rows: seq<LabelledSpace>, key: (string, int), color: string): int {
    if rows == [] then 0
    else (if rows[0].barrio == key.0 && rows[0].barrioId == key.1 && rows[0].color == color
          then rows[0].numPlazas else 0)
         + SumPlazas(rows[1..], key, color)
  }

  /** The (name, id) pair a spaces row is grouped by. */
  function SpaceKey(r: LabelledSpace): (string, int) {
    (r.barrio, r.barrioId)
  }

  /** The (name, id) pair of a `spaces_grouped_df` row. */
  function GroupKey(g: SpacesGroup): (string, int) {
    (g.barrio, g.barrioId)
  }

  /** The (name, id) pairs occurring in the spaces rows. */
  function RowKeySet(rows: seq<LabelledSpace>): set<(string, int)> {
    set r | r in rows :: SpaceKey(r)
  }

  /** The (name, id) pairs of the group rows. */
  function GroupKeySet(groups: seq<SpacesGroup>): set<(string, int)> {
    set g | g in groups :: GroupKey(g)
  }

  /** The (name, id) group keys in the order pandas lists them: each key of the rows
      once, in ascending order. */
  function GroupKeys(rows: seq<LabelledSpace>): (keys: seq<(string, int)>)
    ensures forall k :: k in keys <==> k in RowKeySet(rows)
    ensures Distinct(keys)
    ensures forall i :: 0 < i < |keys| ==> KeyLe(keys[i - 1], keys[i])
  {
    var unique := UniqueKeys(rows);
    SortKeys(unique);
    InsertionSort(unique, KeyLe)
  }

  /** The keys of the rows, each once. */
  function UniqueKeys(rows: seq<LabelledSpace>): (unique: seq<(string, int)>)
    ensures forall k :: k in unique <==> k in RowKeySet(rows)
    ensures Distinct(unique)
  {
    var all := seq(|rows|, i requires 0 <= i < |rows| => SpaceKey(rows[i]));
    var unique := Dedup(all);
    forall k | k in RowKeySet(rows) ensures k in unique {
      var r :| r in rows && SpaceKey(r) == k;
      var j :| 0 <= j < |rows| && rows[j] == r;
      assert all[j] == k;
    }
    forall k | k in unique ensures k in RowKeySet(rows) {
      var j :| 0 <= j < |all| && all[j] == k;
      assert rows[j] in rows;
    }
    unique
  }

  /** Sorting distinct keys keeps them, keeps them distinct and orders them. */
  lemma SortKeys(unique: seq<(string, int)>)
    requires Distinct(unique)
    ensures var keys := InsertionSort(unique, KeyLe);
      && (forall k :: k in keys <==> k in unique)
      && Distinct(keys)
      && forall i :: 0 < i < |keys| ==> KeyLe(keys[i - 1], keys[i])
  {
    KeyLeTotal();
    InsertionSortDistinct(unique, KeyLe);
    var keys := InsertionSort(unique, KeyLe);
    assert forall k :: k in keys <==> k in multiset(keys);
    assert forall k :: k in unique <==> k in multiset(unique);
  }

  /** One `spaces_grouped_df` row: blue and green totals and their sum. */
  function GroupRow(rows: seq<LabelledSpace>, key: (string, int)): (g: SpacesGroup)
  {
    var azules := SumPlazas(rows, key, AzulColor);
    var verdes := SumPlazas(rows, key, VerdeColor);
    SpacesGroup(key.0, key.1, azules + verdes, azules, verdes)
  }

  /** The group rows of the given keys, in the keys' order. */
  function GroupsOf(rows: seq<LabelledSpace>, keys: seq<(string, int)>): (groups: seq<SpacesGroup>)
    ensures |groups| == |keys|
    ensures forall i :: 0 <= i < |keys| ==>
      && GroupKey(groups[i]) == keys[i]
      && groups[i].numPlazasAzules == SumPlazas(rows, keys[i], AzulColor)
      && groups[i].numPlazasVerdes == SumPlazas(rows, keys[i], VerdeColor)
      && groups[i].numPlazas == groups[i].numPlazasAzules + groups[i].numPlazasVerdes
  {
    seq(|keys|, i requires 0 <= i < |keys| => GroupRow(rows, keys[i]))
  }

  /** `spaces_grouped_df`: one row per distinct (name, id) of the spaces rows, in
      ascending key order, holding the blue and green totals of that group (0 for a
      colour the group lacks) and their sum. */
  function SpacesGrouped(rows: seq<LabelledSpace>): (groups: seq<SpacesGroup>)
    ensures GroupKeySet(groups) == RowKeySet(rows)
    ensures forall i, j :: 0 <= i < j < |groups| ==> GroupKey(groups[i]) != GroupKey(groups[j])
    ensures forall i :: 0 < i < |groups| ==> KeyLe(GroupKey(groups[i - 1]), GroupKey(groups[i]))
    ensures forall i :: 0 <= i < |groups| ==>
      && groups[i].numPlazasAzules == SumPlazas(rows, GroupKey(groups[i]), AzulColor)
      && groups[i].numPlazasVerdes == SumPlazas(rows, GroupKey(groups[i]), VerdeColor)
      && groups[i].numPlazas == groups[i].numPlazasAzules + groups[i].numPlazasVerdes
  {
    var keys := GroupKeys(rows);
    var groups := GroupsOf(rows, keys);
    GroupsCoverKeys(rows, keys, groups);
    groups
  }

  /** Group rows built over the keys of the rows carry exactly those keys. */
  lemma GroupsCoverKeys(rows: seq<LabelledSpace>, keys: seq<(string, int)>, groups: seq<SpacesGroup>)
    requires forall k :: k in keys <==> k in RowKeySet(rows)
    requires |groups| == |keys| && forall i :: 0 <= i < |keys| ==> GroupKey(groups[i]) == keys[i]
    ensures GroupKeySet(groups) == RowKeySet(rows)
  {
    forall k | k in RowKeySet(rows) ensures k in GroupKeySet(groups) {
      var i :| 0 <= i < |keys| && keys[i] == k;
      assert groups[i] in groups;
    }
    forall k | k in GroupKeySet(groups) ensures k in RowKeySet(rows) {
      var g :| g in groups && GroupKey(g) == k;
      var i :| 0 <= i < |groups| && groups[i] == g;
      assert keys[i] in keys;
    }
  }

  /** Sum of `num_plazas` over the rows of one colour. */
  function ColourTotal(rows: seq<LabelledSpace>, color: string): int {
    if rows == [] then 0 else
      var last := rows[|rows| - 1];
      ColourTotal(rows[..|rows| - 1], color) + (if last.color == color then last.numPlazas else 0)
  }

  /** Sum of `num_plazas` over the group rows. */
  function TotalPlazas(groups: seq<SpacesGroup>): int {
    if groups == [] then 0 else groups[0].numPlazas + TotalPlazas(groups[1..])
  }

  /** Sum of one colour's group totals over the given keys. */
  function SumOverKeys(rows: seq<LabelledSpace>, keys: seq<(string, int)>, color: string): int {
    if keys == [] then 0 else SumPlazas(rows, keys[0], color) + SumOverKeys(rows, keys[1..], color)
  }

  /** No space is lost or counted twice: the group rows hold, between them, exactly the
      blue and green spaces of the input rows. */
  lemma SpacesGroupedConserves(rows: seq<LabelledSpace>)
    ensures TotalPlazas(SpacesGrouped(rows)) == ColourTotal(rows, AzulColor) + ColourTotal(rows, VerdeColor)
  {
    var keys := GroupKeys(rows);
    TotalOverKeys(rows, keys);
    forall j | 0 <= j < |rows| ensures SpaceKey(rows[j]) in keys {
      assert rows[j] in rows;
    }
    SumOverKeysCovers(rows, keys, AzulColor);
    SumOverKeysCovers(rows, keys, VerdeColor);
  }

  /** The group rows' total is the sum of their blue and green totals. */
  lemma {:induction false} TotalOverKeys(rows: seq<LabelledSpace>, keys: seq<(string, int)>)
    ensures TotalPlazas(GroupsOf(rows, keys))
      == SumOverKeys(rows, keys, AzulColor) + SumOverKeys(rows, keys, VerdeColor)
  {
    if keys != [] {
      assert GroupsOf(rows, keys)[1..] == GroupsOf(rows, keys[1..]);
      TotalOverKeys(rows, keys[1..]);
    }
  }

  /** Over keys that cover every row once, the group totals of a colour add up to the
      colour's total. */
  lemma {:induction false} SumOverKeysCovers(rows: seq<LabelledSpace>, keys: seq<(string, int)>, color: string)
    requires Distinct(keys)
    requires forall j :: 0 <= j < |rows| ==> SpaceKey(rows[j]) in keys
    ensures SumOverKeys(rows, keys, color) == ColourTotal(rows, color)
  {
    if rows == [] {
      SumOverKeysNone(keys, color);
    } else {
      var init := rows[..|rows| - 1];
      var last := rows[|rows| - 1];
      assert rows == init + [last];
      assert forall j :: 0 <= j < |init| ==> init[j] == rows[j];
      SumOverKeysCovers(init, keys, color);
      SumOverKeysAppend(init, last, keys, color);
    }
  }

  lemma {:induction false} SumOverKeysNone(keys: seq<(string, int)>, color: string)
    ensures SumOverKeys([], keys, color) == 0
  {
    if keys != [] {
      SumOverKeysNone(keys[1..], color);
    }
  }

  /** A new row adds its spaces to the one group key it belongs to, if any. */
  lemma {:induction false} SumOverKeysAppend(rows: seq<LabelledSpace>, r: LabelledSpace, keys: seq<(string, int)>, color: string)
    requires Distinct(keys)
    ensures SumOverKeys(rows + [r], keys, color) == SumOverKeys(rows, keys, color)
      + (if SpaceKey(r) in keys && r.color == color then r.numPlazas else 0)
  {
    if keys != [] {
      assert Distinct(keys[1..]) by {
        assert forall i :: 0 <= i < |keys| - 1 ==> keys[1..][i] == keys[i + 1];
      }
      assert keys[0] !in keys[1..];
      assert SpaceKey(r) in keys <==> SpaceKey(r) == keys[0] || SpaceKey(r) in keys[1..];
      SumPlazasAppend(rows, r, keys[0], color);
      SumOverKeysAppend(rows, r, keys[1..], color);
    }
  }

  /** With non-negative counts every capacity total is non-negative. */
  lemma {:induction false} SumPlazasNonNegative(rows: seq<LabelledSpace>, key: (string, int), color: string)
    requires forall i :: 0 <= i < |rows| ==> rows[i].numPlazas >= 0
    ensures SumPlazas(rows, key, color) >= 0
  {
    if rows != [] {
      assert forall i :: 0 <= i < |rows| - 1 ==> rows[1..][i] == rows[i + 1];
      SumPlazasNonNegative(rows[1..], key, color);
    }
  }

  /** Adding a row changes a total only when the row belongs to that group and colour. */
  lemma {:induction false} SumPlazasAppend(rows: seq<LabelledSpace>, r: LabelledSpace, key: (string, int), color: string)
    ensures SumPlazas(rows + [r], key, color) == SumPlazas(rows, key, color)
      + (if r.barrio == key.0 && r.barrioId == key.1 && r.color == color then r.numPlazas else 0)
  {
    if rows != [] {
      assert (rows + [r])[1..] == rows[1..] + [r];
      SumPlazasAppend(rows[1..], r, key, color);
    } else {
      assert [] + [r] == [r];
    }
  }

  /** `spaces_dict` (`set_index("barrio_id").to_dict()`): for each id, the last group row
      with that id. */
  function SpacesDict(groups: seq<SpacesGroup>): map<int, SpacesGroup> {
    ToDict(groups, (g: SpacesGroup) => g.barrioId, (g: SpacesGroup) => g)
  }

  /** `get_num_plazas`: the blue capacity, or the green one where there is no blue. */
  function GetNumPlazas(d: map<int, SpacesGroup>, barrioId: int): (n: int)
    requires barrioId in d
    ensures d[barrioId].numPlazasAzules != 0 ==> n == d[barrioId].numPlazasAzules
    ensures d[barrioId].numPlazasAzules == 0 ==> n == d[barrioId].numPlazasVerdes
  {
    var g := d[barrioId];
    if g.numPlazasAzules == 0 then g.numPlazasVerdes else g.numPlazasAzules
  }

  /** With non-negative counts and some capacity at all, the capacity used for
      percentages is positive. */
  lemma GetNumPlazasPositive(d: map<int, SpacesGroup>, barrioId: int)
    requires barrioId in d
    requires d[barrioId].numPlazasAzules >= 0 && d[barrioId].numPlazasVerdes >= 0
    requires d[barrioId].numPlazasAzules + d[barrioId].numPlazasVerdes > 0
    ensures GetNumPlazas(d, barrioId) > 0
  {
  }

  /** A `spaces_clean` entry. */
  datatype SpaceInfo = SpaceInfo(barrio: string, numPlazas: int)

  /** One spaces row with its id and display name resolved; a row without a code fails. */
  function LabelSpace(row: SpaceRow, unidecode: string -> string): (r: Result<LabelledSpace>)
    ensures r.Failure? <==> SpacesBarrioId(row.barrio).Failure?
    ensures r.Failure? ==> r.error == ValueError
    ensures r.Success? ==> (r.value.barrio == SpacesBarrioName(row.barrio, unidecode)
      && r.value.barrioId == SpacesBarrioId(row.barrio).value
      && r.value.color == row.color && r.value.numPlazas == row.numPlazas)
  {
    match SpacesBarrioId(row.barrio)
    case Failure(e) => Failure(e)
    case Success(id) => Success(LabelledSpace(SpacesBarrioName(row.barrio, unidecode), id, row.color, row.numPlazas))
  }

  /** The labelling of every spaces row. */
  function LabelWith(unidecode: string -> string): SpaceRow -> Result<LabelledSpace> {
    (row: SpaceRow) => LabelSpace(row, unidecode)
  }

  /** Some spaces row has no `DD-DD` code. */
  predicate SomeRowWithoutCode(raw: seq<SpaceRow>) {
    exists i :: 0 <= i < |raw| && SpacesBarrioId(raw[i].barrio).Failure?
  }

  /** No spaces row has the colour, so the pivot has no column for it. */
  predicate ColourAbsent(raw: seq<SpaceRow>, color: string) {
    forall i :: 0 <= i < |raw| ==> raw[i].color != color
  }

  /** `spaces_grouped_df` of the labelled rows. A row without a code raises ValueError
      (`astype(int)` on NaN); otherwise a colour absent from every row raises KeyError
      (its pivot column is missing when the total is read). */
  function SpacesGroupedDf(raw: seq<SpaceRow>, unidecode: string -> string): (r: Result<seq<SpacesGroup>>)
    ensures r.Failure? <==>
      SomeRowWithoutCode(raw) || ColourAbsent(raw, AzulColor) || ColourAbsent(raw, VerdeColor)
    ensures r.Failure? ==> r.error == if SomeRowWithoutCode(raw) then ValueError else KeyError
    ensures r.Success? ==> MapAll(raw, LabelWith(unidecode)).Success?
    ensures r.Success? ==> var rows := MapAll(raw, LabelWith(unidecode)).value;
      && |rows| == |raw|
      && (forall i :: 0 <= i < |raw| ==> LabelSpace(raw[i], unidecode) == Success(rows[i]))
      && r.value == SpacesGrouped(rows)
  {
    match MapAll(raw, LabelWith(unidecode))
    case Failure(e) => Failure(e)
    case Success(rows) =>
      if ColourAbsent(raw, AzulColor) then Failure(KeyError)
      else if ColourAbsent(raw, VerdeColor) then Failure(KeyError)
      else Success(SpacesGrouped(rows))
  }

  /** The `spaces_clean` loop: one entry per id of `spaces_dict`, holding the name and
      the capacity `get_num_plazas` picks. */
  method SpacesClean(groups: seq<SpacesGroup>) returns (clean: map<int, SpaceInfo>)
    ensures forall i :: 0 <= i < |groups| ==> groups[i].barrioId in clean
    ensures forall k :: k in clean ==> (k in SpacesDict(groups)
      && clean[k] == SpaceInfo(SpacesDict(groups)[k].barrio, GetNumPlazas(SpacesDict(groups), k)))
  {
    var spacesDict := SpacesDict(groups);
    ToDictKeys(groups, (g: SpacesGroup) => g.barrioId, (g: SpacesGroup) => g);
    var allIds := seq(|groups|, i requires 0 <= i < |groups| => groups[i].barrioId);
    var ids := Dedup(allIds);
    assert forall j :: 0 <= j < |ids| ==> ids[j] in spacesDict;
    clean := CleanEntries(ids, spacesDict);
    forall i | 0 <= i < |groups| ensures groups[i].barrioId in clean {
      assert allIds[i] in ids;
    }
  }

  /** The loop body of `spaces_clean` over the ids in order. */
  method CleanEntries(ids: seq<int>, spacesDict: map<int, SpacesGroup>) returns (clean: map<int, SpaceInfo>)
    requires forall j :: 0 <= j < |ids| ==> ids[j] in spacesDict
    ensures forall j :: 0 <= j < |ids| ==> ids[j] in clean
    ensures forall k :: k in clean ==> (k in spacesDict
      && clean[k] == SpaceInfo(spacesDict[k].barrio, GetNumPlazas(spacesDict, k)))
  {
    clean := map[];
    for i := 0 to |ids|
      invariant forall j :: 0 <= j < i ==> ids[j] in clean
      invariant forall k :: k in clean ==> (k in spacesDict
        && clean[k] == SpaceInfo(spacesDict[k].barrio, GetNumPlazas(spacesDict, k)))
    {
      var id := ids[i];
      clean := clean[id := SpaceInfo(spacesDict[id].barrio, GetNumPlazas(spacesDict, id))];
    }
  }

  /** `spaces_data_preprocessor`: `spaces_grouped_df` and `spaces_clean`. */
  method SpacesDataPreprocessor(raw: seq<SpaceRow>, unidecode: string -> string)
    returns (r: Result<(seq<SpacesGroup>, map<int, SpaceInfo>)>)
    ensures r.Failure? <==> SpacesGroupedDf(raw, unidecode).Failure?
    ensures r.Success? ==> var (groups, clean) := r.value;
      && groups == SpacesGroupedDf(raw, unidecode).value
      && (forall i :: 0 <= i < |groups| ==> groups[i].barrioId in clean)
      && (forall k :: k in clean ==> (k in SpacesDict(groups)
            && clean[k] == SpaceInfo(SpacesDict(groups)[k].barrio, GetNumPlazas(SpacesDict(groups), k))))
  {
    var grouped := SpacesGroupedDf(raw, unidecode);
    if grouped.Failure? {
      return Failure(grouped.error);
    }
    var clean := SpacesClean(grouped.value);
    r := Success((grouped.value, clean));
  }
}
