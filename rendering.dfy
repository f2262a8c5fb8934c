/**
 * What `Where` makes of the conditions the matchers build: for a valid
 * column, the SQL text each matcher's condition turns into once it is
 * numbered from counter `c`, and the values it binds.
 */
module Rendering {
  import opened Types
  import opened Strings
  import opened Validation
  import opened Matchers
  import opened Numbering
  import opened Conditions

  /** A valid column name holds no `$`, so it can never be mistaken for a marker. */
  lemma ValidNameNoDollar(s: string)
    requires ValidColumnName(s)
    ensures NoDollar(s)
  {
  }

  lemma NoDollarConcat(a: string, b: string)
    requires NoDollar(a) && NoDollar(b)
    ensures NoDollar(a + b)
  {
    forall i | 0 <= i < |a + b| ensures (a + b)[i] != '$' {
      if i < |a| {
        assert (a + b)[i] == a[i];
      } else {
        assert (a + b)[i] == b[i - |a|];
      }
    }
  }

  /** `p` ends with the given three characters, which are not `IN `. */
  lemma NotEndsWithIn(p: string, x: string, tail: string)
    requires |tail| == 3 && tail != "IN " && p == x + tail
    ensures !EndsWithIn(p)
  {
    assert p[|p| - 3..] == tail;
  }

  /** `column + op + "$1"` numbered from `c`: the operator keeps its place, `$c` takes the marker's. */
  lemma ColumnOperatorRendering(column: string, op: string, value: Value, c: nat)
    requires ValidColumnName(column) && NoDollar(op)
    requires |op| >= 3 && op[|op| - 3..] != "IN "
    ensures RenderLeaf(column + op + "$1", value, c) == Rendered(column + op + Placeholder(c), [value])
  {
    ValidNameNoDollar(column);
    NoDollarConcat(column, op);
    NotEndsWithIn(column + op, column + op[..|op| - 3], op[|op| - 3..]);
    ScalarLeafRendering(column + op, "", value, c);
    assert column + op + "$1" + "" == column + op + "$1";
    assert column + op + Placeholder(c) + "" == column + op + Placeholder(c);
  }

  /** `column + " IN $1"` with a list numbered from `c`: one placeholder per item, items bound in order. */
  lemma ColumnInRendering(column: string, value: Value, c: nat)
    requires ValidColumnName(column) && (value.IntList? || value.StrList?)
    ensures RenderLeaf(column + " IN $1", value, c) ==
            Rendered(column + " IN (" + Join(PlaceholderList(c, ListLength(value)), ", ") + ")", ListItems(value))
  {
    ValidNameNoDollar(column);
    NoDollarConcat(column, " ");
    InListRendering(column + " ", value, c);
    assert column + " " + "IN $1" == column + " IN $1";
    var list := Join(PlaceholderList(c, ListLength(value)), ", ");
    assert column + " " + "IN (" + list + ")" == column + " IN (" + list + ")";
  }

  /**
   * `ByIntColumn` under `Where`: one value gives `col = $c` binding that
   * value; any other count gives `col IN ($c, ..., $c+n-1)` binding the n
   * values in order (`col IN ()` binding nothing when n is 0).
   */
  lemma IntMatcherRendering(column: string, values: seq<int>, c: nat)
    requires ValidColumnName(column)
    ensures |values| == 1 ==>
              RenderCondition(ByIntColumn(column, values).value, c) ==
              Rendered(column + " = " + Placeholder(c), [IntV(values[0])])
    ensures |values| != 1 ==>
              RenderCondition(ByIntColumn(column, values).value, c) ==
              Rendered(column + " IN (" + Join(PlaceholderList(c, |values|), ", ") + ")", IntValues(values))
  {
    if |values| == 1 {
      ColumnOperatorRendering(column, " = ", IntV(values[0]), c);
      assert column + " = $1" == column + " = " + "$1";
    } else {
      ColumnInRendering(column, IntList(values), c);
    }
  }

  /** One string, exact and case-sensitive: `col = $c`, binding the string. */
  lemma ExactStringRendering(column: string, v: string, c: nat)
    requires ValidColumnName(column)
    ensures RenderCondition(SingleStringCondition(column, v, StringExact, Sensitive), c) ==
            Rendered(column + " = " + Placeholder(c), [StrV(v)])
  {
    ColumnOperatorRendering(column, " = ", StrV(v), c);
    assert column + " = $1" == column + " = " + "$1";
  }

  /** One string, exact and case-insensitive: `LOWER(col) = LOWER($c)`, binding the string. */
  lemma ExactInsensitiveRendering(column: string, v: string, c: nat)
    requires ValidColumnName(column)
    ensures RenderCondition(SingleStringCondition(column, v, StringExact, NonSensitive), c) ==
            Rendered("LOWER(" + column + ") = LOWER(" + Placeholder(c) + ")", [StrV(v)])
  {
    var p := "LOWER(" + column + ") = LOWER(";
    ValidNameNoDollar(column);
    NoDollarConcat("LOWER(", column);
    NoDollarConcat("LOWER(" + column, ") = LOWER(");
    NotEndsWithIn(p, "LOWER(" + column + ") = LOW", "ER(");
    ScalarLeafRendering(p, ")", StrV(v), c);
    assert "LOWER(" + column + ") = LOWER($1)" == p + "$1" + ")";
  }

  /**
   * One string with a pattern mode: `col LIKE $c`, or `col ILIKE $c` when
   * case-insensitive, binding the string with `%` around it, after it or
   * before it for contains, starts-with and ends-with.
   */
  lemma PatternStringRendering(column: string, v: string, mode: StringMatchType,
                               sensitivity: StringSensitivity, c: nat)
    requires ValidColumnName(column) && mode != StringExact
    ensures var r := RenderCondition(SingleStringCondition(column, v, mode, sensitivity), c);
            && r.fragment == column + (if sensitivity == Sensitive then " LIKE " else " ILIKE ") + Placeholder(c)
            && (mode == StringContains ==> r.values == [StrV("%" + v + "%")])
            && (mode == StringStartsWith ==> r.values == [StrV(v + "%")])
            && (mode == StringEndsWith ==> r.values == [StrV("%" + v)])
  {
    var q := SingleStringCondition(column, v, mode, sensitivity);
    if sensitivity == Sensitive {
      assert q.condition == column + " LIKE " + "$1";
      ColumnOperatorRendering(column, " LIKE ", q.value, c);
    } else {
      assert q.condition == column + " ILIKE " + "$1";
      ColumnOperatorRendering(column, " ILIKE ", q.value, c);
    }
  }

  /**
   * `ByStringColumn` under `Where`: with two or more strings, whatever the
   * options, `col IN ($c, ..., $c+n-1)` binding the strings in order; with
   * exactly one, the condition its last mode and sensitivity select.
   */
  lemma StringMatcherRendering(column: string, args: seq<StringArg>, c: nat)
    requires ValidColumnName(column)
    ensures var strs := StringsOf(args);
            |strs| >= 2 ==>
              RenderCondition(ByStringColumn(column, args).value, c) ==
              Rendered(column + " IN (" + Join(PlaceholderList(c, |strs|), ", ") + ")", StrValues(strs))
    ensures var strs := StringsOf(args);
            var scan := ScanStringArgs(args);
            |strs| == 1 ==>
              RenderCondition(ByStringColumn(column, args).value, c) ==
              RenderCondition(SingleStringCondition(column, strs[0], scan.mode, scan.sensitivity), c)
    ensures |StringsOf(args)| == 0 ==> RenderCondition(ByStringColumn(column, args).value, c) == Rendered("", [Nil])
  {
    var strs := StringsOf(args);
    if |strs| >= 2 {
      ColumnInRendering(column, StrList(strs), c);
    } else if |strs| == 0 {
      EmptyConditionRendering(c);
    }
  }

  /** The exact-day template numbered from `c`: `$c` takes the marker's place inside the cast. */
  lemma ExactDayRendering(column: string, value: Value, c: nat)
    requires ValidColumnName(column)
    ensures RenderLeaf("DATE_TRUNC('day', " + column + ") = DATE_TRUNC('day', $1::timestamp)", value, c) ==
            Rendered("DATE_TRUNC('day', " + column + ") = DATE_TRUNC('day', " + Placeholder(c) + "::timestamp)", [value])
  {
    var p := "DATE_TRUNC('day', " + column + ") = DATE_TRUNC('day', ";
    ValidNameNoDollar(column);
    NoDollarConcat("DATE_TRUNC('day', ", column);
    NoDollarConcat("DATE_TRUNC('day', " + column, ") = DATE_TRUNC('day', ");
    NotEndsWithIn(p, "DATE_TRUNC('day', " + column + ") = DATE_TRUNC('day", "', ");
    ScalarLeafRendering(p, "::timestamp)", value, c);
    assert "DATE_TRUNC('day', " + column + ") = DATE_TRUNC('day', $1::timestamp)" == p + "$1" + "::timestamp)";
  }

  /** The inlined range keeps its text when neither instant's text holds a `$`, and binds `Nil`. */
  lemma BetweenRendering(column: string, t0: string, t1: string, c: nat)
    requires ValidColumnName(column) && NoDollar(t0) && NoDollar(t1)
    ensures RenderLeaf(column + " BETWEEN '" + t0 + "' AND '" + t1 + "'", Nil, c) ==
            Rendered(column + " BETWEEN '" + t0 + "' AND '" + t1 + "'", [Nil])
  {
    ValidNameNoDollar(column);
    NoDollarConcat(column, " BETWEEN '");
    NoDollarConcat(column + " BETWEEN '", t0);
    NoDollarConcat(column + " BETWEEN '" + t0, "' AND '");
    NoDollarConcat(column + " BETWEEN '" + t0 + "' AND '", t1);
    NoDollarConcat(column + " BETWEEN '" + t0 + "' AND '" + t1, "'");
    MarkerFreeLeafRendering(column + " BETWEEN '" + t0 + "' AND '" + t1 + "'", Nil, c);
  }

  /**
   * `ByDateColumn` under `Where` with at least one instant and a single-instant
   * range type: exact-day, after and before bind the first instant's text
   * to `$c`.
   */
  lemma DateInstantRendering(column: string, args: seq<DateArg>, c: nat)
    requires ValidColumnName(column) && |TimesOf(args)| > 0
    ensures var t := TimesOf(args)[0].rfc3339;
            var r := RenderCondition(ByDateColumn(column, args).value, c);
            var k := ScanDateArgs(args).rangeType;
            && (k == DateExact ==>
                  r == Rendered("DATE_TRUNC('day', " + column + ") = DATE_TRUNC('day', " + Placeholder(c) + "::timestamp)",
                                [StrV(t)]))
            && (k == DateAfter ==> r == Rendered(column + " > " + Placeholder(c), [StrV(t)]))
            && (k == DateBefore ==> r == Rendered(column + " < " + Placeholder(c), [StrV(t)]))
  {
    var t := TimesOf(args)[0].rfc3339;
    var k := ScanDateArgs(args).rangeType;
    if k == DateExact {
      ExactDayRendering(column, StrV(t), c);
    } else if k == DateAfter {
      ColumnOperatorRendering(column, " > ", StrV(t), c);
      assert column + " > $1" == column + " > " + "$1";
    } else if k == DateBefore {
      ColumnOperatorRendering(column, " < ", StrV(t), c);
      assert column + " < $1" == column + " < " + "$1";
    }
  }

  /**
   * `ByDateColumn` under `Where` for a range or no instant: between with two
   * instants keeps its inlined literals (when an instant's text holds no
   * `$`, as RFC 3339 text never does) and still binds `Nil`; between with
   * fewer instants, like no instant at all, gives an empty text binding `Nil`.
   */
  lemma DateRangeRendering(column: string, args: seq<DateArg>, c: nat)
    requires ValidColumnName(column)
    ensures var times := TimesOf(args);
            var r := RenderCondition(ByDateColumn(column, args).value, c);
            var k := ScanDateArgs(args).rangeType;
            && (|times| >= 2 && k == DateBetween && NoDollar(times[0].rfc3339) && NoDollar(times[1].rfc3339) ==>
                  r == Rendered(column + " BETWEEN '" + times[0].rfc3339 + "' AND '" + times[1].rfc3339 + "'", [Nil]))
            && ((|times| == 0 || (|times| < 2 && k == DateBetween)) ==> r == Rendered("", [Nil]))
  {
    var times := TimesOf(args);
    var k := ScanDateArgs(args).rangeType;
    if |times| == 0 || (|times| < 2 && k == DateBetween) {
      EmptyConditionRendering(c);
    } else if k == DateBetween && NoDollar(times[0].rfc3339) && NoDollar(times[1].rfc3339) {
      BetweenRendering(column, times[0].rfc3339, times[1].rfc3339, c);
    }
  }
}
