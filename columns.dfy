/**
 * Header normalisation done when the table is loaded: every column name
 * is stripped of surrounding whitespace and lower-cased.
 */
module Columns {

  import opened Text

  /** Normal form of one column name: `name.strip().lower()`. */
  function NormalizeName(name: string): (r: string)
    ensures exists a, b :: 0 <= a <= b <= |name| && r == Lower(name[a..b]) && OnlySpaceOutside(name, a, b)
    ensures r == [] || (!IsSpace(r[0]) && !IsSpace(r[|r| - 1]))
    ensures forall i :: 0 <= i < |r| ==> !IsUpper(r[i])
  {
    Lower(Trim(name))
  }

  /** Normalising a name that is already normal leaves it unchanged. */
  lemma NormalizeNameIdempotent(name: string)
    ensures NormalizeName(NormalizeName(name)) == NormalizeName(name)
  {
    var t := NormalizeName(name);
    TrimOfTrimmed(t);
    LowerIdempotent(Trim(name));
  }

  /** The new header row: each name normalised, in the same positions. */
  function NormalizeColumns(columns: seq<string>): (r: seq<string>)
    ensures |r| == |columns|
    ensures forall i :: 0 <= i < |columns| ==> r[i] == NormalizeName(columns[i])
  {
    seq(|columns|, i requires 0 <= i < |columns| => NormalizeName(columns[i]))
  }

  /** Loading a table whose headers were already normalised does not change them again. */
  lemma NormalizeColumnsIdempotent(columns: seq<string>)
    ensures NormalizeColumns(NormalizeColumns(columns)) == NormalizeColumns(columns)
  {
    forall i | 0 <= i < |columns|
      ensures NormalizeColumns(NormalizeColumns(columns))[i] == NormalizeColumns(columns)[i]
    {
      NormalizeNameIdempotent(columns[i]);
    }
  }
}
