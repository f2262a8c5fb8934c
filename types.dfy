/**
 * The values the query builder works with: the option enumerations, the
 * dynamically typed values Go keeps in `any`, conditions and sort keys.
 */
module Types {

  /** How a single string is compared (the zero value is `StringExact`). */
  datatype StringMatchType = StringExact | StringContains | StringStartsWith | StringEndsWith

  /** Whether a string comparison respects case (the zero value is `Sensitive`). */
  datatype StringSensitivity = Sensitive | NonSensitive

  /** How a date condition compares (the zero value is `DateExact`). */
  datatype DateRangeType = DateExact | DateAfter | DateBefore | DateBetween

  datatype SortDirection = SortAsc | SortDesc

  /**
   * An instant. The builder only ever uses an instant through its RFC 3339
   * rendering, so that rendering is all an instant carries here.
   */
  datatype Time = Time(rfc3339: string)

  /** The dynamic values that end up in a condition or in the bound-value list. */
  datatype Value =
    | IntV(i: int)
    | StrV(s: string)
    | IntList(ints: seq<int>)
    | StrList(strs: seq<string>)
    | Nil

  /**
   * A condition: either a leaf holding a template with the marker `$1` (and,
   * for a range form, `$2`) plus the value to bind, or a parenthesised group
   * of child conditions joined by `groupOp`. `placeholder` is the formatting
   * hint each matcher records; nothing downstream reads it.
   */
  datatype QueryCondition =
    | Leaf(condition: string, value: Value, placeholder: string)
    | Group(groupConds: seq<QueryCondition>, groupOp: string)

  /** The zero condition a matcher returns when it has nothing to match. */
  const EmptyCondition: QueryCondition := Leaf("", Nil, "")

  /** A sort key: the column and its direction. */
  datatype SortField = SortField(field: string, direction: SortDirection)

  /** The only failure in the core: a column name outside the identifier grammar. */
  datatype Error = InvalidColumnName(column: string)

  datatype Outcome = Pass | Fail(error: Error)

  /** A matcher's or the sort constructor's result: the value, or the failure it aborts with. */
  datatype Result<T> = Ok(value: T) | Err(error: Error)
}
