/** Column-name standardisation of the parking ticket frames: labels are stripped of
    surrounding whitespace and the two short code names are spelled out. The frame is
    changed in place and returned. */
module Columns {
  import opened Text

  /** A data frame, as far as its column labels go. */
  class Frame {
    var columns: seq<string>

    constructor(columns: seq<string>)
      ensures this.columns == columns
    {
      this.columns := columns;
    }
  }

  /** `rename(columns={"cod_distrito": "codigo_distrito", "cod_barrio": "codigo_barrio"})`
      for one label. */
  function Rename(c: string): string {
    if c == "cod_distrito" then "codigo_distrito"
    else if c == "cod_barrio" then "codigo_barrio"
    else c
  }

  /** The standard form of one label. */
  function StandardName(c: string): string {
    Rename(Strip(c))
  }

  function StandardNames(cols: seq<string>): (r: seq<string>)
    ensures |r| == |cols| && forall i :: 0 <= i < |cols| ==> r[i] == StandardName(cols[i])
  {
    seq(|cols|, i requires 0 <= i < |cols| => StandardName(cols[i]))
  }

  /** A string with no whitespace at either end is its own strip. */
  lemma StripUnchanged(s: string)
    requires s != [] && !IsSpace(s[0]) && !IsSpace(s[|s| - 1])
    ensures Strip(s) == s
  {
    assert StripLeft(s) == s;
  }

  /** A standard label is stripped; the two code names are spelled out and every
      other label is only stripped. */
  lemma StandardNameRules(c: string)
    ensures Strip(StandardName(c)) == StandardName(c)
    ensures Strip(c) == "cod_distrito" ==> StandardName(c) == "codigo_distrito"
    ensures Strip(c) == "cod_barrio" ==> StandardName(c) == "codigo_barrio"
    ensures Strip(c) != "cod_distrito" && Strip(c) != "cod_barrio" ==> StandardName(c) == Strip(c)
  {
    var s := Strip(c);
    if s == "cod_distrito" {
      StripUnchanged("codigo_distrito");
    } else if s == "cod_barrio" {
      StripUnchanged("codigo_barrio");
    } else {
      StripIdempotent(c);
    }
  }

  /** Standardising twice changes nothing more. */
  lemma StandardNamesIdempotent(cols: seq<string>)
    ensures StandardNames(StandardNames(cols)) == StandardNames(cols)
  {
    forall i | 0 <= i < |cols|
      ensures StandardName(StandardName(cols[i])) == StandardName(cols[i])
    {
      StandardNameRules(cols[i]);
    }
  }

  /** `standardize_parking_columns`: rewrites the frame's labels in place, keeping their
      number and order, and returns the same frame. */
  method StandardizeParkingColumns(df: Frame) returns (r: Frame)
    modifies df
    ensures r == df
    ensures df.columns == StandardNames(old(df.columns))
  {
    var cols := df.columns;
    var stripped := seq(|cols|, i requires 0 <= i < |cols| => Strip(cols[i]));
    df.columns := stripped;
    df.columns := seq(|stripped|, i requires 0 <= i < |stripped| => Rename(stripped[i]));
    r := df;
  }
}
