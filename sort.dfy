/**
 * The sort-key constructor and the rendering of the keys in `ORDER BY`.
 */
module Sorting {
  import opened Types
  import opened Validation
  import opened Strings

  /**
   * `Sort`: validates the field name, keeps it unchanged, and takes the first
   * direction given (ascending when none is).
   */
  function Sort(field: string, direction: seq<SortDirection>): (r: Result<SortField>)
    ensures r.Err? <==> !ValidColumnName(field)
    ensures r.Err? ==> r.error == InvalidColumnName(field)
    ensures r.Ok? ==> r.value.field == field
    ensures r.Ok? && |direction| == 0 ==> r.value.direction == SortAsc
    ensures r.Ok? && |direction| > 0 ==> r.value.direction == direction[0]
  {
    if ValidateColumnName(field).Fail? then Err(ValidateColumnName(field).error)
    else
      var dir := if |direction| > 0 then direction[0] else SortAsc;
      Ok(SortField(field, dir))
  }

  /** One key as `ORDER BY` prints it: only a descending key carries a suffix. */
  function SortPart(f: SortField): string
  {
    if f.direction == SortDesc then f.field + " DESC" else f.field
  }

  function SortParts(fields: seq<SortField>): (parts: seq<string>)
    ensures |parts| == |fields|
    ensures forall i :: 0 <= i < |fields| ==> parts[i] == SortPart(fields[i])
  {
    seq(|fields|, i requires 0 <= i < |fields| => SortPart(fields[i]))
  }

  /** The `ORDER BY` clause: absent without keys, else the keys in order, comma-separated. */
  function OrderByClause(fields: seq<SortField>): string
  {
    if |fields| == 0 then "" else " ORDER BY " + Join(SortParts(fields), ", ")
  }

  /**
   * Keys added later are listed after the earlier ones, which are printed
   * unchanged: two successive `SortBy` calls read as one list.
   */
  lemma OrderByAppend(a: seq<SortField>, b: seq<SortField>)
    requires |a| > 0 && |b| > 0
    ensures OrderByClause(a + b) == OrderByClause(a) + ", " + Join(SortParts(b), ", ")
  {
    assert SortParts(a + b) == SortParts(a) + SortParts(b);
    JoinAppend(SortParts(a), SortParts(b), ", ");
  }

  /** A key made by `Sort` with no direction, or with `SortAsc`, prints bare; with `SortDesc`, with ` DESC`. */
  lemma SortKeyRendering(field: string, direction: seq<SortDirection>)
    requires ValidColumnName(field)
    ensures |direction| == 0 ==> SortPart(Sort(field, direction).value) == field
    ensures |direction| > 0 && direction[0] == SortDesc ==>
              SortPart(Sort(field, direction).value) == field + " DESC"
    ensures |direction| > 0 && direction[0] == SortAsc ==>
              SortPart(Sort(field, direction).value) == field
  {
  }
}
