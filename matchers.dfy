/**
 * The matcher constructors: each validates its column name first and then
 * builds a condition whose template carries the marker `$1`, to be numbered
 * later by `Where`. The variadic `...any` argument lists are modelled as
 * sequences of tagged arguments; an argument of any other type is ignored,
 * as Go's type switch ignores it.
 */
module Matchers {
  import opened Types
  import opened Validation

  /** `ByIntColumn`: one value gives an equality, any other count a membership test. */
  function ByIntColumn(column: string, values: seq<int>): (r: Result<QueryCondition>)
    ensures r.Err? <==> !ValidColumnName(column)
    ensures r.Err? ==> r.error == InvalidColumnName(column)
    ensures r.Ok? ==> r.value.Leaf? && r.value.placeholder == "%v"
    ensures r.Ok? && |values| == 1 ==> r.value.condition == column + " = $1" && r.value.value == IntV(values[0])
    ensures r.Ok? && |values| != 1 ==> r.value.condition == column + " IN $1" && r.value.value == IntList(values)
  {
    if ValidateColumnName(column).Fail? then Err(ValidateColumnName(column).error)
    else if |values| == 1 then Ok(Leaf(column + " = $1", IntV(values[0]), "%v"))
    else Ok(Leaf(column + " IN $1", IntList(values), "%v"))
  }

  // ---------------------------------------------------------------------------
  // Strings

  /** One argument of `ByStringColumn`'s variadic list. */
  datatype StringArg =
    | StrArg(s: string)
    | MatchArg(mode: StringMatchType)
    | SensitivityArg(sensitivity: StringSensitivity)
    | OtherStringArg

  /** What the option loop leaves behind: the strings, the match mode, the sensitivity. */
  datatype StringScan = StringScan(strings: seq<string>, mode: StringMatchType, sensitivity: StringSensitivity)

  /**
   * The option loop of `ByStringColumn`: strings are collected in order, and
   * each option overwrites the one of its kind seen before it.
   */
  function ScanStringArgs(args: seq<StringArg>): StringScan
    decreases |args|
  {
    if |args| == 0 then StringScan([], StringExact, Sensitive)
    else
      var acc := ScanStringArgs(args[..|args| - 1]);
      match args[|args| - 1]
      case StrArg(s) => acc.(strings := acc.strings + [s])
      case MatchArg(m) => acc.(mode := m)
      case SensitivityArg(x) => acc.(sensitivity := x)
      case OtherStringArg => acc
  }

  /** The string arguments of a list, front to back. */
  function StringsOf(args: seq<StringArg>): seq<string>
    decreases |args|
  {
    if |args| == 0 then []
    else (if args[0].StrArg? then [args[0].s] else []) + StringsOf(args[1..])
  }

  lemma {:induction false} StringsOfSnoc(args: seq<StringArg>, a: StringArg)
    ensures StringsOf(args + [a]) == StringsOf(args) + (if a.StrArg? then [a.s] else [])
    decreases |args|
  {
    if |args| == 0 {
      assert args + [a] == [a];
    } else {
      assert (args + [a])[1..] == args[1..] + [a];
      StringsOfSnoc(args[1..], a);
    }
  }

  /** The loop keeps every string argument, in argument order, and nothing else. */
  lemma {:induction false} ScanCollectsStrings(args: seq<StringArg>)
    ensures ScanStringArgs(args).strings == StringsOf(args)
    decreases |args|
  {
    if |args| > 0 {
      var init := args[..|args| - 1];
      ScanCollectsStrings(init);
      StringsOfSnoc(init, args[|args| - 1]);
      assert init + [args[|args| - 1]] == args;
    }
  }

  /** The match mode is the last one given. */
  lemma {:induction false} ScanModeIsLast(args: seq<StringArg>, i: int)
    requires 0 <= i < |args| && args[i].MatchArg?
    requires forall j :: i < j < |args| ==> !args[j].MatchArg?
    ensures ScanStringArgs(args).mode == args[i].mode
    decreases |args|
  {
    if i < |args| - 1 {
      ScanModeIsLast(args[..|args| - 1], i);
    }
  }

  /** Without a match-mode argument the mode is `StringExact`. */
  lemma {:induction false} ScanModeDefault(args: seq<StringArg>)
    requires forall j :: 0 <= j < |args| ==> !args[j].MatchArg?
    ensures ScanStringArgs(args).mode == StringExact
    decreases |args|
  {
    if |args| > 0 {
      ScanModeDefault(args[..|args| - 1]);
    }
  }

  /** The sensitivity is the last one given. */
  lemma {:induction false} ScanSensitivityIsLast(args: seq<StringArg>, i: int)
    requires 0 <= i < |args| && args[i].SensitivityArg?
    requires forall j :: i < j < |args| ==> !args[j].SensitivityArg?
    ensures ScanStringArgs(args).sensitivity == args[i].sensitivity
    decreases |args|
  {
    if i < |args| - 1 {
      ScanSensitivityIsLast(args[..|args| - 1], i);
    }
  }

  /** Without a sensitivity argument the comparison is `Sensitive`. */
  lemma {:induction false} ScanSensitivityDefault(args: seq<StringArg>)
    requires forall j :: 0 <= j < |args| ==> !args[j].SensitivityArg?
    ensures ScanStringArgs(args).sensitivity == Sensitive
    decreases |args|
  {
    if |args| > 0 {
      ScanSensitivityDefault(args[..|args| - 1]);
    }
  }

  /** The condition for exactly one string, chosen by match mode and sensitivity. */
  function SingleStringCondition(column: string, value: string, mode: StringMatchType,
                                 sensitivity: StringSensitivity): QueryCondition
  {
    var caseSensitive := sensitivity == Sensitive;
    var operator := if caseSensitive then (if mode != StringExact then "LIKE" else "=") else "ILIKE";
    match mode
    case StringExact =>
      if caseSensitive then Leaf(column + " = $1", StrV(value), "%s")
      else Leaf("LOWER(" + column + ") = LOWER($1)", StrV(value), "%s")
    case StringContains => Leaf(column + " " + operator + " $1", StrV("%" + value + "%"), "%s")
    case StringStartsWith => Leaf(column + " " + operator + " $1", StrV(value + "%"), "%s")
    case StringEndsWith => Leaf(column + " " + operator + " $1", StrV("%" + value), "%s")
  }

  /**
   * `ByStringColumn`: no strings give the empty condition, two or more a
   * membership test over all of them in order (whatever the match mode), one
   * string the condition its mode and sensitivity select.
   */
  function ByStringColumn(column: string, args: seq<StringArg>): (r: Result<QueryCondition>)
    ensures r.Err? <==> !ValidColumnName(column)
    ensures r.Err? ==> r.error == InvalidColumnName(column)
    ensures r.Ok? && |StringsOf(args)| == 0 ==> r.value == EmptyCondition
    ensures r.Ok? && |StringsOf(args)| >= 2 ==>
              r.value == Leaf(column + " IN $1", StrList(StringsOf(args)), "%s")
    ensures r.Ok? && |StringsOf(args)| == 1 ==>
              var scan := ScanStringArgs(args);
              r.value == SingleStringCondition(column, StringsOf(args)[0], scan.mode, scan.sensitivity)
  {
    ScanCollectsStrings(args);
    if ValidateColumnName(column).Fail? then Err(ValidateColumnName(column).error)
    else if |args| == 0 then Ok(EmptyCondition)
    else
      var scan := ScanStringArgs(args);
      if |scan.strings| == 0 then Ok(EmptyCondition)
      else if |scan.strings| > 1 then Ok(Leaf(column + " IN $1", StrList(scan.strings), "%s"))
      else Ok(SingleStringCondition(column, scan.strings[0], scan.mode, scan.sensitivity))
  }

  // ---------------------------------------------------------------------------
  // Dates

  /** One argument of `ByDateColumn`'s variadic list. */
  datatype DateArg =
    | TimeArg(t: Time)
    | RangeArg(rangeType: DateRangeType)
    | OtherDateArg

  datatype DateScan = DateScan(dates: seq<Time>, rangeType: DateRangeType)

  /** The option loop of `ByDateColumn`: instants in order, the last range type wins. */
  function ScanDateArgs(args: seq<DateArg>): DateScan
    decreases |args|
  {
    if |args| == 0 then DateScan([], DateExact)
    else
      var acc := ScanDateArgs(args[..|args| - 1]);
      match args[|args| - 1]
      case TimeArg(t) => acc.(dates := acc.dates + [t])
      case RangeArg(k) => acc.(rangeType := k)
      case OtherDateArg => acc
  }

  /** The instants of an argument list, front to back. */
  function TimesOf(args: seq<DateArg>): seq<Time>
    decreases |args|
  {
    if |args| == 0 then []
    else (if args[0].TimeArg? then [args[0].t] else []) + TimesOf(args[1..])
  }

  lemma {:induction false} TimesOfSnoc(args: seq<DateArg>, a: DateArg)
    ensures TimesOf(args + [a]) == TimesOf(args) + (if a.TimeArg? then [a.t] else [])
    decreases |args|
  {
    if |args| == 0 {
      assert args + [a] == [a];
    } else {
      assert (args + [a])[1..] == args[1..] + [a];
      TimesOfSnoc(args[1..], a);
    }
  }

  /** The loop keeps every instant argument, in argument order. */
  lemma {:induction false} ScanCollectsTimes(args: seq<DateArg>)
    ensures ScanDateArgs(args).dates == TimesOf(args)
    decreases |args|
  {
    if |args| > 0 {
      var init := args[..|args| - 1];
      ScanCollectsTimes(init);
      TimesOfSnoc(init, args[|args| - 1]);
      assert init + [args[|args| - 1]] == args;
    }
  }

  /** The range type is the last one given. */
  lemma {:induction false} ScanRangeIsLast(args: seq<DateArg>, i: int)
    requires 0 <= i < |args| && args[i].RangeArg?
    requires forall j :: i < j < |args| ==> !args[j].RangeArg?
    ensures ScanDateArgs(args).rangeType == args[i].rangeType
    decreases |args|
  {
    if i < |args| - 1 {
      ScanRangeIsLast(args[..|args| - 1], i);
    }
  }

  /** Without a range-type argument the comparison is `DateExact`. */
  lemma {:induction false} ScanRangeDefault(args: seq<DateArg>)
    requires forall j :: 0 <= j < |args| ==> !args[j].RangeArg?
    ensures ScanDateArgs(args).rangeType == DateExact
    decreases |args|
  {
    if |args| > 0 {
      ScanRangeDefault(args[..|args| - 1]);
    }
  }

  /** The condition for a non-empty list of instants and a range type. */
  function DateCondition(column: string, dates: seq<Time>, rangeType: DateRangeType): QueryCondition
    requires |dates| > 0
  {
    match rangeType
    case DateExact =>
      Leaf("DATE_TRUNC('day', " + column + ") = DATE_TRUNC('day', $1::timestamp)", StrV(dates[0].rfc3339), "%s")
    case DateAfter => Leaf(column + " > $1", StrV(dates[0].rfc3339), "%s")
    case DateBefore => Leaf(column + " < $1", StrV(dates[0].rfc3339), "%s")
    case DateBetween =>
      if |dates| >= 2 then
        Leaf(column + " BETWEEN '" + dates[0].rfc3339 + "' AND '" + dates[1].rfc3339 + "'", Nil, "")
      else Leaf("", Nil, "")
  }

  /**
   * `ByDateColumn`: no instants give the empty condition; exact-day, after
   * and before bind the first instant's RFC 3339 text; between inlines the
   * first two instants as quoted literals and binds nothing (`Nil`), and
   * with fewer than two instants it is the empty condition.
   */
  function ByDateColumn(column: string, args: seq<DateArg>): (r: Result<QueryCondition>)
    ensures r.Err? <==> !ValidColumnName(column)
    ensures r.Err? ==> r.error == InvalidColumnName(column)
    ensures r.Ok? ==> r.value.Leaf?
    ensures r.Ok? && |TimesOf(args)| == 0 ==> r.value == EmptyCondition
    ensures r.Ok? && |TimesOf(args)| > 0 ==>
              r.value == DateCondition(column, TimesOf(args), ScanDateArgs(args).rangeType)
    ensures r.Ok? && ScanDateArgs(args).rangeType == DateBetween && |TimesOf(args)| < 2 ==>
              r.value == EmptyCondition
    ensures r.Ok? && ScanDateArgs(args).rangeType != DateBetween && |TimesOf(args)| > 0 ==>
              r.value.value == StrV(TimesOf(args)[0].rfc3339)
  {
    ScanCollectsTimes(args);
    if ValidateColumnName(column).Fail? then Err(ValidateColumnName(column).error)
    else if |args| == 0 then Ok(EmptyCondition)
    else
      var scan := ScanDateArgs(args);
      if |scan.dates| == 0 then Ok(EmptyCondition)
      else Ok(DateCondition(column, scan.dates, scan.rangeType))
  }
}
