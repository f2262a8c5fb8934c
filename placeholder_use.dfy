/**
 * Which placeholder numbers a numbered text uses, read the way PostgreSQL
 * reads them (a `$` followed by a run of digits), and the promise the
 * counter makes: a condition built by a matcher, and a group of such
 * conditions, uses only the numbers of the values it binds, in ascending
 * order. Numbered one after the other, such conditions never share a
 * number, within one `Where` call or across successive ones. A template
 * with both `$1` and `$2` does not keep that promise.
 */
module PlaceholderUse {
  import opened Types
  import opened Strings
  import opened Validation
  import opened Matchers
  import opened Numbering
  import opened Conditions
  import opened Rendering

  /** The length of the run of decimal digits at the start of `s`. */
  function DigitRun(s: string): (k: nat)
    ensures k <= |s|
    decreases |s|
  {
    if |s| > 0 && IsDigit(s[0]) then 1 + DigitRun(s[1..]) else 0
  }

  lemma {:induction false} DigitRunDigits(s: string)
    ensures forall i :: 0 <= i < DigitRun(s) ==> IsDigit(s[i])
    decreases |s|
  {
    if |s| > 0 && IsDigit(s[0]) {
      DigitRunDigits(s[1..]);
    }
  }

  /**
   * The numbers of the placeholders in `s`, left to right. A `$` with no
   * digit after it is not a placeholder.
   */
  function PlaceholderNumbers(s: string): seq<nat>
    decreases |s|
  {
    if |s| == 0 then []
    else if s[0] == '$' && DigitRun(s[1..]) > 0 then
      [LeadingNumber(s[1..])] + PlaceholderNumbers(s[1 + DigitRun(s[1..])..])
    else PlaceholderNumbers(s[1..])
  }

  /** The number spelled by the run of digits at the start of `t`. */
  function LeadingNumber(t: string): nat
    requires DigitRun(t) > 0
  {
    DigitRunDigits(t);
    ParseDecimal(t[..DigitRun(t)])
  }

  /** The placeholder numbers of several texts, front to back. */
  function NumbersOfParts(parts: seq<string>): seq<nat>
    decreases |parts|
  {
    if |parts| == 0 then [] else PlaceholderNumbers(parts[0]) + NumbersOfParts(parts[1..])
  }

  /** The numbers `c, c+1, ..., c+n-1`. */
  function Consecutive(c: nat, n: nat): seq<nat>
  {
    seq(n, i requires 0 <= i < n => c + i)
  }

  /**
   * Strictly ascending and all in `[lo, hi)`: the first number is in range
   * and the rest lie above it.
   */
  predicate AscendingWithin(ms: seq<nat>, lo: nat, hi: nat)
    decreases |ms|
  {
    |ms| == 0 || (lo <= ms[0] < hi && AscendingWithin(ms[1..], ms[0] + 1, hi))
  }

  /**
   * A condition numbered from `c` uses only the numbers of the values it
   * binds, `$c` to `$c+|values|-1`, in ascending order.
   */
  predicate UsesOwnNumbers(r: Rendered, c: nat)
  {
    AscendingWithin(PlaceholderNumbers(r.fragment), c, c + |r.values|)
  }

  /** Whatever counter it is numbered from, `q` uses only its own numbers. */
  ghost predicate KeepsOwnNumbers(q: QueryCondition)
  {
    forall c: nat {:trigger UsesOwnNumbers(RenderCondition(q, c), c)} :: UsesOwnNumbers(RenderCondition(q, c), c)
  }

  /** Every condition of `conds`, rendered by `render` from any counter, keeps to its own numbers. */
  ghost predicate RendersOwnNumbers(render: (QueryCondition, nat) -> Rendered, conds: seq<QueryCondition>)
  {
    forall q, c': nat {:trigger UsesOwnNumbers(render(q, c'), c')} :: q in conds ==> UsesOwnNumbers(render(q, c'), c')
  }

  /** Every condition of `conds` keeps to its own numbers. */
  ghost predicate AllKeepOwnNumbers(conds: seq<QueryCondition>)
  {
    forall q :: q in conds ==> KeepsOwnNumbers(q)
  }

  /** Conditions that keep to their own numbers do so when `Where` renders them. */
  lemma KeepersRenderOwnNumbers(conds: seq<QueryCondition>)
    requires AllKeepOwnNumbers(conds)
    ensures RendersOwnNumbers(RenderCondition, conds)
  {
  }

  // ---------------------------------------------------------------------------
  // Reading placeholders back

  lemma {:induction false} DigitRunAppend(x: string, b: string)
    requires |b| == 0 || !IsDigit(b[0])
    ensures DigitRun(x + b) == DigitRun(x)
    decreases |x|
  {
    if |x| == 0 {
      assert x + b == b;
    } else {
      assert (x + b)[0] == x[0];
      assert (x + b)[1..] == x[1..] + b;
      DigitRunAppend(x[1..], b);
    }
  }

  /** Text without a `$` in front of `s` adds no placeholder. */
  lemma {:induction false} NumbersAfterDollarFree(p: string, s: string)
    requires NoDollar(p)
    ensures PlaceholderNumbers(p + s) == PlaceholderNumbers(s)
    decreases |p|
  {
    if |p| == 0 {
      assert p + s == s;
    } else {
      assert (p + s)[0] == p[0];
      assert (p + s)[1..] == p[1..] + s;
      NumbersAfterDollarFree(p[1..], s);
    }
  }

  /** Text without a `$` holds no placeholder. */
  lemma DollarFreeNumbers(t: string)
    requires NoDollar(t)
    ensures PlaceholderNumbers(t) == []
  {
    NumbersAfterDollarFree(t, "");
    assert t + "" == t;
  }

  /**
   * Placeholders of `a + b` are those of `a` followed by those of `b` when
   * `b` does not start with a digit, which would lengthen a placeholder at
   * the end of `a`.
   */
  lemma {:induction false} NumbersAppend(a: string, b: string)
    requires |b| == 0 || !IsDigit(b[0])
    ensures PlaceholderNumbers(a + b) == PlaceholderNumbers(a) + PlaceholderNumbers(b)
    decreases |a|
  {
    if |a| == 0 {
      assert a + b == b;
    } else if a[0] == '$' && DigitRun(a[1..]) > 0 {
      NumbersAppend(a[1 + DigitRun(a[1..])..], b);
      NumbersAppendMarker(a, b);
    } else {
      NumbersAppend(a[1..], b);
      NumbersAppendOther(a, b);
    }
  }

  /** The step of `NumbersAppend` past a placeholder at the front of `a`. */
  lemma NumbersAppendMarker(a: string, b: string)
    requires |b| == 0 || !IsDigit(b[0])
    requires |a| > 0 && a[0] == '$' && DigitRun(a[1..]) > 0
    requires var rest := a[1 + DigitRun(a[1..])..];
             PlaceholderNumbers(rest + b) == PlaceholderNumbers(rest) + PlaceholderNumbers(b)
    ensures PlaceholderNumbers(a + b) == PlaceholderNumbers(a) + PlaceholderNumbers(b)
  {
    var k := DigitRun(a[1..]);
    NumbersAtMarker(a);
    NumbersFrontMarker(a, b);
    AppendAssoc([LeadingNumber(a[1..])], PlaceholderNumbers(a[1 + k..]), PlaceholderNumbers(b));
  }

  /** The step of `NumbersAppend` past a character of `a` that starts no placeholder. */
  lemma NumbersAppendOther(a: string, b: string)
    requires |b| == 0 || !IsDigit(b[0])
    requires |a| > 0 && !(a[0] == '$' && DigitRun(a[1..]) > 0)
    requires PlaceholderNumbers(a[1..] + b) == PlaceholderNumbers(a[1..]) + PlaceholderNumbers(b)
    ensures PlaceholderNumbers(a + b) == PlaceholderNumbers(a) + PlaceholderNumbers(b)
  {
    NumbersFrontOther(a, b);
  }

  /** A placeholder at the front of `a` is read the same way at the front of `a + b`. */
  lemma NumbersFrontMarker(a: string, b: string)
    requires |a| > 0 && a[0] == '$' && DigitRun(a[1..]) > 0
    requires |b| == 0 || !IsDigit(b[0])
    ensures PlaceholderNumbers(a + b) == [LeadingNumber(a[1..])] + PlaceholderNumbers(a[1 + DigitRun(a[1..])..] + b)
  {
    var s := a + b;
    var k := DigitRun(a[1..]);
    assert s[0] == a[0];
    assert s[1..] == a[1..] + b;
    LeadingNumberAppend(a[1..], b);
    assert s[1 + k..] == a[1 + k..] + b;
    NumbersAtMarker(s);
  }

  /** How `PlaceholderNumbers` reads a placeholder at the front of `s`. */
  lemma NumbersAtMarker(s: string)
    requires |s| > 0 && s[0] == '$' && DigitRun(s[1..]) > 0
    ensures PlaceholderNumbers(s) == [LeadingNumber(s[1..])] + PlaceholderNumbers(s[1 + DigitRun(s[1..])..])
  {
  }

  /** A run of digits followed by a non-digit spells the same number whatever follows. */
  lemma LeadingNumberAppend(t: string, b: string)
    requires DigitRun(t) > 0
    requires |b| == 0 || !IsDigit(b[0])
    ensures DigitRun(t + b) == DigitRun(t) && LeadingNumber(t + b) == LeadingNumber(t)
  {
    DigitRunAppend(t, b);
    assert (t + b)[..DigitRun(t)] == t[..DigitRun(t)];
  }

  /** A character of `a` that starts no placeholder is skipped in `a + b` too. */
  lemma NumbersFrontOther(a: string, b: string)
    requires |a| > 0 && !(a[0] == '$' && DigitRun(a[1..]) > 0)
    requires |b| == 0 || !IsDigit(b[0])
    ensures PlaceholderNumbers(a) == PlaceholderNumbers(a[1..])
    ensures PlaceholderNumbers(a + b) == PlaceholderNumbers(a[1..] + b)
  {
    var s := a + b;
    assert s[0] == a[0];
    assert s[1..] == a[1..] + b;
    DigitRunAppend(a[1..], b);
  }

  /** `$` and a run of digits followed by a non-digit reads back as the number those digits spell. */
  lemma DollarDigitsThen(d: string, s: string)
    requires |d| > 0 && forall i :: 0 <= i < |d| ==> IsDigit(d[i])
    requires |s| == 0 || !IsDigit(s[0])
    ensures PlaceholderNumbers("$" + d + s) == [ParseDecimal(d)] + PlaceholderNumbers(s)
  {
    var x := "$" + d + s;
    assert x[0] == '$';
    assert x[1..] == d + s;
    DigitRunAppend(d, s);
    DigitRunAllDigits(d);
    assert x[1..][..|d|] == d;
    assert x[1 + |d|..] == s;
  }

  /** `$n` followed by a non-digit reads back as the number `n`. */
  lemma PlaceholderThen(n: nat, s: string)
    requires |s| == 0 || !IsDigit(s[0])
    ensures PlaceholderNumbers(Placeholder(n) + s) == [n] + PlaceholderNumbers(s)
  {
    var d := NatToDecimal(n);
    assert Placeholder(n) + s == "$" + d + s;
    DollarDigitsThen(d, s);
    DecimalRoundTrip(n);
  }

  lemma {:induction false} DigitRunAllDigits(d: string)
    requires forall i :: 0 <= i < |d| ==> IsDigit(d[i])
    ensures DigitRun(d) == |d|
    decreases |d|
  {
    if |d| > 0 {
      DigitRunAllDigits(d[1..]);
    }
  }

  /** A scalar template's text after numbering, `p$cq`, uses exactly `$c`. */
  lemma ScalarNumbers(p: string, c: nat, q: string)
    requires NoDollar(p) && NoDollar(q) && (|q| == 0 || !IsDigit(q[0]))
    ensures PlaceholderNumbers(p + Placeholder(c) + q) == [c]
  {
    assert p + Placeholder(c) + q == p + (Placeholder(c) + q);
    NumbersAfterDollarFree(p, Placeholder(c) + q);
    PlaceholderThen(c, q);
    DollarFreeNumbers(q);
  }

  /** A placeholder list of two or more joins as its first placeholder, `, ` and the rest. */
  lemma PlaceholderListFront(c: nat, n: nat)
    requires n >= 2
    ensures Join(PlaceholderList(c, n), ", ") ==
            Placeholder(c) + ", " + Join(PlaceholderList(c + 1, n - 1), ", ")
  {
    var ps := PlaceholderList(c, n);
    assert ps[0] == Placeholder(c);
    assert ps[1..] == PlaceholderList(c + 1, n - 1);
  }

  /** An expanded list `$c, ..., $c+n-1)` uses exactly those numbers, in order. */
  lemma {:induction false} ListNumbers(c: nat, n: nat)
    ensures PlaceholderNumbers(Join(PlaceholderList(c, n), ", ") + ")") == Consecutive(c, n)
    decreases n
  {
    if n == 0 {
      DollarFreeNumbers(")");
      assert Join(PlaceholderList(c, n), ", ") + ")" == ")";
    } else if n == 1 {
      ListNumbersOne(c);
    } else {
      ListNumbers(c + 1, n - 1);
      ListNumbersStep(c, n);
    }
  }

  lemma ListNumbersOne(c: nat)
    ensures PlaceholderNumbers(Join(PlaceholderList(c, 1), ", ") + ")") == Consecutive(c, 1)
  {
    DollarFreeNumbers(")");
    assert PlaceholderList(c, 1)[0] == Placeholder(c);
    assert Join(PlaceholderList(c, 1), ", ") == Placeholder(c);
    PlaceholderThen(c, ")");
  }

  lemma ListNumbersStep(c: nat, n: nat)
    requires n >= 2
    requires PlaceholderNumbers(Join(PlaceholderList(c + 1, n - 1), ", ") + ")") == Consecutive(c + 1, n - 1)
    ensures PlaceholderNumbers(Join(PlaceholderList(c, n), ", ") + ")") == Consecutive(c, n)
  {
    var rest := Join(PlaceholderList(c + 1, n - 1), ", ");
    var tail := ", " + (rest + ")");
    PlaceholderListFront(c, n);
    AppendAssoc(Placeholder(c) + ", ", rest, ")");
    AppendAssoc(Placeholder(c), ", ", rest + ")");
    PlaceholderThen(c, tail);
    NumbersAfterDollarFree(", ", rest + ")");
    ConsecutiveFront(c, n);
  }

  lemma ConsecutiveFront(c: nat, n: nat)
    requires n >= 1
    ensures Consecutive(c, n) == [c] + Consecutive(c + 1, n - 1)
  {
  }

  /** The placeholders of joined texts are those of each text in turn, when the separator holds none. */
  lemma {:induction false} JoinNumbers(parts: seq<string>, sep: string)
    requires NoDollar(sep) && |sep| > 0 && !IsDigit(sep[0])
    ensures PlaceholderNumbers(Join(parts, sep)) == NumbersOfParts(parts)
    decreases |parts|
  {
    if |parts| == 1 {
      assert parts[1..] == [];
    } else if |parts| > 1 {
      var rest := Join(parts[1..], sep);
      JoinNumbers(parts[1..], sep);
      assert Join(parts, sep) == parts[0] + (sep + rest);
      NumbersAppend(parts[0], sep + rest);
      NumbersAfterDollarFree(sep, rest);
    }
  }

  /** Ascending within `[lo, hi)` means: every number is in range and no number occurs twice. */
  lemma {:induction false} AscendingWithinMeans(ms: seq<nat>, lo: nat, hi: nat)
    requires AscendingWithin(ms, lo, hi)
    ensures forall i :: 0 <= i < |ms| ==> lo <= ms[i] < hi
    ensures forall i, j :: 0 <= i < j < |ms| ==> ms[i] < ms[j]
    decreases |ms|
  {
    if |ms| > 0 {
      var rest := ms[1..];
      AscendingWithinMeans(rest, ms[0] + 1, hi);
      forall i | 0 < i < |ms| ensures ms[0] < ms[i] && ms[i] < hi {
        assert ms[i] == rest[i - 1];
      }
      forall i, j | 0 <= i < j < |ms| ensures ms[i] < ms[j] {
        if 0 < i {
          assert ms[i] == rest[i - 1] && ms[j] == rest[j - 1];
        }
      }
    }
  }

  lemma AscendingWithinLower(ms: seq<nat>, lo: nat, lo': nat, hi: nat)
    requires AscendingWithin(ms, lo, hi) && lo' <= lo
    ensures AscendingWithin(ms, lo', hi)
  {
  }

  /** Two ascending runs, the second above the first, make one ascending run. */
  lemma {:induction false} AscendingWithinAppend(x: seq<nat>, y: seq<nat>, lo: nat, mid: nat, hi: nat)
    requires lo <= mid <= hi
    requires AscendingWithin(x, lo, mid) && AscendingWithin(y, mid, hi)
    ensures AscendingWithin(x + y, lo, hi)
    decreases |x|
  {
    if |x| == 0 {
      assert x + y == y;
      AscendingWithinLower(y, mid, lo, hi);
    } else {
      assert (x + y)[0] == x[0];
      assert (x + y)[1..] == x[1..] + y;
      AscendingWithinAppend(x[1..], y, x[0] + 1, mid, hi);
    }
  }

  /** `c, c+1, ..., c+n-1` ascend within `[c, c+n)`. */
  lemma {:induction false} ConsecutiveAscending(c: nat, n: nat)
    ensures AscendingWithin(Consecutive(c, n), c, c + n)
    decreases n
  {
    if n > 0 {
      ConsecutiveFront(c, n);
      ConsecutiveAscending(c + 1, n - 1);
    }
  }

  // ---------------------------------------------------------------------------
  // Conditions keep to their own numbers

  /**
   * Conditions that each use only their own numbers, numbered one after the
   * other from `c`: together their parts use numbers from `$c` to
   * `$c+|values|-1` only, in ascending order, so no number is used twice.
   */
  lemma {:induction false} NumberEachAscending(render: (QueryCondition, nat) -> Rendered,
                                               conds: seq<QueryCondition>, c: nat)
    requires RendersOwnNumbers(render, conds)
    ensures AscendingWithin(NumbersOfParts(NumberEach(render, conds, c).parts), c, c + |NumberEach(render, conds, c).values|)
    decreases |conds|
  {
    if |conds| > 0 {
      var r := render(conds[0], c);
      var c' := c + |r.values|;
      var rest := NumberEach(render, conds[1..], c');
      assert UsesOwnNumbers(r, c);
      NumberEachAscending(render, conds[1..], c');
      var n := NumberEach(render, conds, c);
      assert n.parts[0] == r.fragment && n.parts[1..] == rest.parts;
      AscendingWithinAppend(PlaceholderNumbers(r.fragment), NumbersOfParts(rest.parts), c, c', c' + |rest.values|);
    }
  }

  /**
   * A group whose leaf children each keep to their own numbers keeps to its
   * own numbers too (a nested group reads as a marker-free child), provided
   * its operator holds no `$`.
   */
  lemma GroupKeepsOwnNumbers(children: seq<QueryCondition>, op: string)
    requires NoDollar(op)
    requires forall q :: q in children && q.Leaf? ==> KeepsOwnNumbers(q)
    ensures KeepsOwnNumbers(Group(children, op))
  {
    ChildrenUseOwnNumbers(children);
    forall c: nat ensures UsesOwnNumbers(RenderCondition(Group(children, op), c), c) {
      var n := NumberEach(RenderChild, children, c);
      GroupTextAscending(RenderChild, children, op, c, n);
      GroupRendering(children, op, c, n);
      GroupUsesOwnNumbers(children, op, c, n);
    }
  }

  /** A group whose text's numbers ascend within the slots of its values keeps to its own numbers. */
  lemma GroupUsesOwnNumbers(children: seq<QueryCondition>, op: string, c: nat, n: Numbered)
    requires RenderCondition(Group(children, op), c) == Rendered("(" + Join(n.parts, " " + op + " ") + ")", n.values)
    requires AscendingWithin(PlaceholderNumbers("(" + Join(n.parts, " " + op + " ") + ")"), c, c + |n.values|)
    ensures UsesOwnNumbers(RenderCondition(Group(children, op), c), c)
  {
    OwnNumbersOf(RenderCondition(Group(children, op), c), "(" + Join(n.parts, " " + op + " ") + ")", n.values, c);
  }

  /** A rendering `Rendered(t, vs)` keeps to its own numbers when `t`'s numbers ascend within `vs`'s slots. */
  lemma OwnNumbersOf(r: Rendered, t: string, vs: seq<Value>, c: nat)
    requires r == Rendered(t, vs) && AscendingWithin(PlaceholderNumbers(t), c, c + |vs|)
    ensures UsesOwnNumbers(r, c)
  {
  }

  /** A parenthesised group of conditions that use only their own numbers uses only its own numbers. */
  lemma GroupTextAscending(render: (QueryCondition, nat) -> Rendered, children: seq<QueryCondition>,
                           op: string, c: nat, n: Numbered)
    requires NoDollar(op)
    requires RendersOwnNumbers(render, children)
    requires n == NumberEach(render, children, c)
    ensures AscendingWithin(PlaceholderNumbers("(" + Join(n.parts, " " + op + " ") + ")"), c, c + |n.values|)
  {
    NumberEachAscending(render, children, c);
    GroupTextNumbers(n.parts, op);
  }

  /** Read as group children, leaves keep to their own numbers and nested groups use none. */
  lemma ChildrenUseOwnNumbers(children: seq<QueryCondition>)
    requires forall q :: q in children && q.Leaf? ==> KeepsOwnNumbers(q)
    ensures RendersOwnNumbers(RenderChild, children)
  {
    forall q, c': nat | q in children ensures UsesOwnNumbers(RenderChild(q, c'), c') {
      if q.Leaf? {
        assert RenderChild(q, c') == RenderCondition(q, c');
      } else {
        MarkerFreeLeafRendering("", Nil, c');
      }
    }
  }

  /** The placeholders of `(p0 op p1 ... op pn)` are those of the parts, when `op` holds no `$`. */
  lemma GroupTextNumbers(parts: seq<string>, op: string)
    requires NoDollar(op)
    ensures PlaceholderNumbers("(" + Join(parts, " " + op + " ") + ")") == NumbersOfParts(parts)
  {
    var sep := " " + op + " ";
    NoDollarConcat(" ", op);
    NoDollarConcat(" " + op, " ");
    var j := Join(parts, sep);
    JoinNumbers(parts, sep);
    NumbersAppend(j, ")");
    DollarFreeNumbers(")");
    assert "(" + j + ")" == "(" + (j + ")");
    NumbersAfterDollarFree("(", j + ")");
  }

  /** `Or` and `And` of leaves that keep to their own numbers keep to their own numbers. */
  lemma OrAndKeepOwnNumbers(conditions: seq<QueryCondition>)
    requires forall q :: q in conditions && q.Leaf? ==> KeepsOwnNumbers(q)
    ensures KeepsOwnNumbers(Or(conditions)) && KeepsOwnNumbers(And(conditions))
  {
    GroupKeepsOwnNumbers(conditions, "OR");
    GroupKeepsOwnNumbers(conditions, "AND");
  }

  /** `p + "$c"` with `p` free of `$` and one bound value uses only its own number. */
  lemma ScalarKeepsOwnNumber(p: string, q: string, value: Value, c: nat)
    requires NoDollar(p) && NoDollar(q) && (|q| == 0 || !IsDigit(q[0]))
    ensures UsesOwnNumbers(Rendered(p + Placeholder(c) + q, [value]), c)
  {
    ScalarNumbers(p, c, q);
  }

  /** `p + "IN ($c, ..., $c+n-1)"` binding n items uses only its own numbers. */
  lemma InListKeepsOwnNumbers(p: string, values: seq<Value>, c: nat)
    requires NoDollar(p)
    ensures UsesOwnNumbers(Rendered(p + Join(PlaceholderList(c, |values|), ", ") + ")", values), c)
  {
    var list := Join(PlaceholderList(c, |values|), ", ");
    assert p + list + ")" == p + (list + ")");
    NumbersAfterDollarFree(p, list + ")");
    ListNumbers(c, |values|);
    ConsecutiveAscending(c, |values|);
  }

  /** `ByIntColumn`'s condition, whatever the counter, uses only its own numbers. */
  lemma IntMatcherKeepsOwnNumbers(column: string, values: seq<int>)
    ensures ByIntColumn(column, values).Ok? ==> KeepsOwnNumbers(ByIntColumn(column, values).value)
  {
    if ByIntColumn(column, values).Ok? {
      ValidNameNoDollar(column);
      forall c: nat ensures UsesOwnNumbers(RenderCondition(ByIntColumn(column, values).value, c), c) {
        IntMatcherRendering(column, values, c);
        if |values| == 1 {
          NoDollarConcat(column, " = ");
          ScalarKeepsOwnNumber(column + " = ", "", IntV(values[0]), c);
          assert column + " = " + Placeholder(c) + "" == column + " = " + Placeholder(c);
        } else {
          NoDollarConcat(column, " IN (");
          InListKeepsOwnNumbers(column + " IN (", IntValues(values), c);
        }
      }
    }
  }

  /** The single-string conditions use only their own number. */
  lemma SingleStringKeepsOwnNumber(column: string, v: string, mode: StringMatchType,
                                   sensitivity: StringSensitivity, c: nat)
    requires ValidColumnName(column)
    ensures UsesOwnNumbers(RenderCondition(SingleStringCondition(column, v, mode, sensitivity), c), c)
  {
    ValidNameNoDollar(column);
    var r := RenderCondition(SingleStringCondition(column, v, mode, sensitivity), c);
    if mode == StringExact && sensitivity == Sensitive {
      ExactStringRendering(column, v, c);
      NoDollarConcat(column, " = ");
      ScalarNumbers(column + " = ", c, "");
      assert column + " = " + Placeholder(c) + "" == r.fragment;
    } else if mode == StringExact {
      ExactInsensitiveRendering(column, v, c);
      NoDollarConcat("LOWER(", column);
      NoDollarConcat("LOWER(" + column, ") = LOWER(");
      ScalarNumbers("LOWER(" + column + ") = LOWER(", c, ")");
    } else {
      PatternStringRendering(column, v, mode, sensitivity, c);
      var op := if sensitivity == Sensitive then " LIKE " else " ILIKE ";
      NoDollarConcat(column, op);
      ScalarNumbers(column + op, c, "");
      assert column + op + Placeholder(c) + "" == r.fragment;
    }
    OneNumberUse(r, c);
  }

  /** A rendering whose text uses `$c` alone and which binds one value keeps to its own number. */
  lemma OneNumberUse(r: Rendered, c: nat)
    requires PlaceholderNumbers(r.fragment) == [c] && |r.values| == 1
    ensures UsesOwnNumbers(r, c)
  {
    assert PlaceholderNumbers(r.fragment)[1..] == [];
  }

  /** `ByStringColumn`'s condition, whatever the counter, uses only its own numbers. */
  lemma StringMatcherKeepsOwnNumbers(column: string, args: seq<StringArg>)
    ensures ByStringColumn(column, args).Ok? ==> KeepsOwnNumbers(ByStringColumn(column, args).value)
  {
    if ByStringColumn(column, args).Ok? {
      var strs := StringsOf(args);
      var scan := ScanStringArgs(args);
      ValidNameNoDollar(column);
      forall c: nat ensures UsesOwnNumbers(RenderCondition(ByStringColumn(column, args).value, c), c) {
        StringMatcherRendering(column, args, c);
        if |strs| >= 2 {
          NoDollarConcat(column, " IN (");
          InListKeepsOwnNumbers(column + " IN (", StrValues(strs), c);
        } else if |strs| == 1 {
          SingleStringKeepsOwnNumber(column, strs[0], scan.mode, scan.sensitivity, c);
        } else {
          DollarFreeNumbers("");
        }
      }
    }
  }

  /**
   * `ByDateColumn`'s condition, whatever the counter, uses only its own
   * numbers, given that an instant's text holds no `$` (RFC 3339 text is
   * made of digits, letters and `-:.+`).
   */
  lemma DateMatcherKeepsOwnNumbers(column: string, args: seq<DateArg>)
    requires forall i :: 0 <= i < |TimesOf(args)| ==> NoDollar(TimesOf(args)[i].rfc3339)
    ensures ByDateColumn(column, args).Ok? ==> KeepsOwnNumbers(ByDateColumn(column, args).value)
  {
    if ByDateColumn(column, args).Ok? {
      var times := TimesOf(args);
      var k := ScanDateArgs(args).rangeType;
      forall c: nat ensures UsesOwnNumbers(RenderCondition(ByDateColumn(column, args).value, c), c) {
        if |times| == 0 || (k == DateBetween && |times| < 2) {
          DateRangeRendering(column, args, c);
          DollarFreeNumbers("");
        } else if k == DateBetween {
          DateRangeRendering(column, args, c);
          BetweenTextNumbers(column, times[0].rfc3339, times[1].rfc3339);
        } else {
          DateInstantUsesOwnNumber(column, args, c);
        }
      }
    }
  }

  /** The inlined range holds no placeholder when neither instant's text holds a `$`. */
  lemma BetweenTextNumbers(column: string, t0: string, t1: string)
    requires ValidColumnName(column) && NoDollar(t0) && NoDollar(t1)
    ensures PlaceholderNumbers(column + " BETWEEN '" + t0 + "' AND '" + t1 + "'") == []
  {
    ValidNameNoDollar(column);
    var w := "' AND '" + (t1 + "'");
    AppendAssoc(column + " BETWEEN '" + t0 + "' AND '", t1, "'");
    AppendAssoc(column + " BETWEEN '" + t0, "' AND '", t1 + "'");
    AppendAssoc(column + " BETWEEN '", t0, w);
    AppendAssoc(column, " BETWEEN '", t0 + w);
    NumbersAfterDollarFree(column, " BETWEEN '" + (t0 + w));
    NumbersAfterDollarFree(" BETWEEN '", t0 + w);
    NumbersAfterDollarFree(t0, w);
    NumbersAfterDollarFree("' AND '", t1 + "'");
    NumbersAfterDollarFree(t1, "'");
    DollarFreeNumbers("'");
  }

  /** Exact-day, after and before use only their own number. */
  lemma DateInstantUsesOwnNumber(column: string, args: seq<DateArg>, c: nat)
    requires ValidColumnName(column) && |TimesOf(args)| > 0 && ScanDateArgs(args).rangeType != DateBetween
    ensures UsesOwnNumbers(RenderCondition(ByDateColumn(column, args).value, c), c)
  {
    DateInstantRendering(column, args, c);
    InstantUsesOwnNumber(column, ScanDateArgs(args).rangeType, RenderCondition(ByDateColumn(column, args).value, c),
                         TimesOf(args)[0].rfc3339, c);
  }

  /** Exact-day, after and before, told apart by `k`, use only their own number. */
  lemma InstantUsesOwnNumber(column: string, k: DateRangeType, r: Rendered, t: string, c: nat)
    requires ValidColumnName(column) && k != DateBetween
    requires k == DateExact ==>
               r == Rendered("DATE_TRUNC('day', " + column + ") = DATE_TRUNC('day', " + Placeholder(c) + "::timestamp)",
                             [StrV(t)])
    requires k == DateAfter ==> r == Rendered(column + " > " + Placeholder(c), [StrV(t)])
    requires k == DateBefore ==> r == Rendered(column + " < " + Placeholder(c), [StrV(t)])
    ensures UsesOwnNumbers(r, c)
  {
    if k == DateExact {
      ExactDayTextNumbers(column, c);
    } else if k == DateAfter {
      OperatorTextNumbers(column, " > ", c);
    } else {
      OperatorTextNumbers(column, " < ", c);
    }
    OneNumberUse(r, c);
  }

  /** The numbered exact-day text uses `$c` only. */
  lemma ExactDayTextNumbers(column: string, c: nat)
    requires ValidColumnName(column)
    ensures PlaceholderNumbers("DATE_TRUNC('day', " + column + ") = DATE_TRUNC('day', " + Placeholder(c) + "::timestamp)") == [c]
  {
    ValidNameNoDollar(column);
    NoDollarConcat("DATE_TRUNC('day', ", column);
    NoDollarConcat("DATE_TRUNC('day', " + column, ") = DATE_TRUNC('day', ");
    ScalarNumbers("DATE_TRUNC('day', " + column + ") = DATE_TRUNC('day', ", c, "::timestamp)");
  }

  /** `column + op + "$c"` uses `$c` only, when `op` holds no `$`. */
  lemma OperatorTextNumbers(column: string, op: string, c: nat)
    requires ValidColumnName(column) && NoDollar(op)
    ensures PlaceholderNumbers(column + op + Placeholder(c)) == [c]
  {
    ValidNameNoDollar(column);
    NoDollarConcat(column, op);
    NumbersAfterDollarFree(column + op, Placeholder(c));
    assert Placeholder(c) == Placeholder(c) + "";
    PlaceholderThen(c, "");
  }

  /**
   * Two successive `Where` calls: numbering `b` from `c'`, where the
   * numbering of `a` from `c` stopped, continues the ascent, so every number
   * of the first call comes before, and differs from, every number of the
   * second.
   */
  lemma NumberEachThenAscending(render: (QueryCondition, nat) -> Rendered,
                                a: seq<QueryCondition>, b: seq<QueryCondition>, c: nat, c': nat)
    requires RendersOwnNumbers(render, a) && RendersOwnNumbers(render, b)
    requires c' == c + |NumberEach(render, a, c).values|
    ensures AscendingWithin(NumbersOfParts(NumberEach(render, a, c).parts) + NumbersOfParts(NumberEach(render, b, c').parts),
                            c, c' + |NumberEach(render, b, c').values|)
  {
    NumberEachAscending(render, a, c);
    NumberEachAscending(render, b, c');
    NumberedThenAscending(NumberEach(render, a, c), NumberEach(render, b, c'), c, c');
  }

  /** `NumberEachThenAscending` on the two numberings, whatever produced them. */
  lemma NumberedThenAscending(na: Numbered, nb: Numbered, c: nat, c': nat)
    requires c' == c + |na.values|
    requires AscendingWithin(NumbersOfParts(na.parts), c, c') && AscendingWithin(NumbersOfParts(nb.parts), c', c' + |nb.values|)
    ensures AscendingWithin(NumbersOfParts(na.parts) + NumbersOfParts(nb.parts), c, c' + |nb.values|)
  {
    AscendingWithinAppend(NumbersOfParts(na.parts), NumbersOfParts(nb.parts), c, c', c' + |nb.values|);
  }

  /**
   * In `p + "$1" + m + "$2"` with no other `$`, the markers are where they
   * were written, and there is no `IN $1` unless `p` ends with `IN `.
   */
  lemma TwoMarkerShape(p: string, m: string)
    requires NoDollar(p) && NoDollar(m) && !EndsWithIn(p)
    ensures FirstAt(p + "$1" + m + "$2", "$1", |p|)
    ensures Contains(p + "$1" + m + "$2", "$2")
    ensures !Contains(p + "$1" + m + "$2", "IN $1")
  {
    var t := p + "$1" + m + "$2";
    assert t == p + "$1" + (m + "$2");
    FirstMarkerAfter(p, "$1", m + "$2", 0);
    var k := |p| + 2 + |m|;
    assert t[k..k + 2] == "$2";
    assert OccursAt(t, "$2", k);
    IndexOfFirst(t, "$2");
    IndexOfFirst(t, "IN $1");
    forall j: nat | j + 5 <= |t| ensures !OccursAt(t, "IN $1", j) {
      TwoMarkerNoInAt(p, m, j);
    }
  }

  /** `TwoMarkerShape`, one position at a time: no `IN $1` starts at `j`. */
  lemma TwoMarkerNoInAt(p: string, m: string, j: nat)
    requires NoDollar(p) && NoDollar(m) && !EndsWithIn(p)
    requires j + 5 <= |p + "$1" + m + "$2"|
    ensures !OccursAt(p + "$1" + m + "$2", "IN $1", j)
  {
    var t := p + "$1" + m + "$2";
    var k := |p| + 2 + |m|;
    assert t[j..j + 5][3] == t[j + 3];
    assert t[j..j + 5][4] == t[j + 4];
    assert t[j..j + 5][..3] == t[j..j + 3];
    if j + 3 < |p| {
      assert t[j + 3] == p[j + 3];
    } else if j + 3 == |p| {
      assert t[j..j + 3] == p[|p| - 3..];
    } else if j + 3 == |p| + 1 {
      assert t[j + 3] == '1';
    } else if j + 3 < k {
      assert t[j + 3] == m[j + 3 - |p| - 2];
    } else {
      assert t[j + 4] == '2';
    }
  }

  /**
   * The branch for a template with both `$1` and `$2` and a `[]string` value
   * renumbers `$1` first and then the first `$2` it finds, which is the one
   * it has just written when the counter is 2. The items are bound to `$2`
   * and `$3` in order, but the text names `$3` first and `$2` second: a
   * two-item range reads its bounds swapped, and with one item `$3` is
   * outside its own numbers and is the next condition's number too.
   */
  lemma TwoMarkerTemplateAtTwo(p: string, m: string, v: seq<string>)
    requires NoDollar(p) && NoDollar(m) && !EndsWithIn(p) && (|m| == 0 || !IsDigit(m[0]))
    ensures RenderLeaf(p + "$1" + m + "$2", StrList(v), 2) == Rendered(p + "$3" + m + "$2", StrValues(v))
    ensures PlaceholderNumbers(p + "$3" + m + "$2") == [3, 2]
    ensures !UsesOwnNumbers(RenderLeaf(p + "$1" + m + "$2", StrList(v), 2), 2)
  {
    TwoMarkerRewrite(p, m, v);
    TwoMarkerNumbers(p, m);
    var ms := PlaceholderNumbers(RenderLeaf(p + "$1" + m + "$2", StrList(v), 2).fragment);
    assert ms == [3, 2];
    assert ms[1..] == [2];
    assert !AscendingWithin(ms[1..], ms[0] + 1, 2 + |v|);
  }

  lemma TwoMarkerRewrite(p: string, m: string, v: seq<string>)
    requires NoDollar(p) && NoDollar(m) && !EndsWithIn(p)
    ensures RenderLeaf(p + "$1" + m + "$2", StrList(v), 2) == Rendered(p + "$3" + m + "$2", StrValues(v))
  {
    var t := p + "$1" + m + "$2";
    TwoMarkerShape(p, m);
    ReplaceFirstAt(t, "$1", "$2", |p|);
    TwoMarkerBranch(t, v, 2);
    TwoMarkerText(p, m);
  }

  /** The branch `RenderLeaf` takes for a `[]string` value and a template with `$1` and `$2` but no `IN $1`. */
  lemma TwoMarkerBranch(t: string, v: seq<string>, c: nat)
    requires !Contains(t, "IN $1") && Contains(t, "$1") && Contains(t, "$2")
    ensures RenderLeaf(t, StrList(v), c) ==
            Rendered(ReplaceFirst(ReplaceFirst(t, "$1", Placeholder(c)), "$2", Placeholder(c + 1)), StrValues(v))
  {
  }

  /** Renumbering `$1` to `$2` and then the first `$2` to `$3` in `p + "$1" + m + "$2"`. */
  lemma TwoMarkerText(p: string, m: string)
    requires NoDollar(p)
    ensures ReplaceFirst(ReplaceFirst(p + "$1" + m + "$2", "$1", Placeholder(2)), "$2", Placeholder(3)) ==
            p + "$3" + m + "$2"
  {
    assert Placeholder(2) == "$2" && Placeholder(3) == "$3";
    assert p + "$1" + m + "$2" == p + "$1" + (m + "$2");
    ReplaceMarkerAfter(p, "$1", m + "$2", "$2");
    ReplaceMarkerAfter(p, "$2", m + "$2", "$3");
    assert p + "$3" + (m + "$2") == p + "$3" + m + "$2";
  }

  /** Replacing a two-character marker that follows `$`-free text `p`. */
  lemma ReplaceMarkerAfter(p: string, pat: string, rest: string, rep: string)
    requires |pat| == 2 && pat[0] == '$' && NoDollar(p)
    ensures ReplaceFirst(p + pat + rest, pat, rep) == p + rep + rest
  {
    var s := p + pat + rest;
    FirstMarkerAfter(p, pat, rest, 0);
    ReplaceFirstAt(s, pat, rep, |p|);
    assert s[..|p|] == p && s[|p| + |pat|..] == rest;
  }

  lemma TwoMarkerNumbers(p: string, m: string)
    requires NoDollar(p) && NoDollar(m) && (|m| == 0 || !IsDigit(m[0]))
    ensures PlaceholderNumbers(p + "$3" + m + "$2") == [3, 2]
  {
    assert Placeholder(2) == "$2" && Placeholder(3) == "$3";
    TwoPlaceholderNumbers(p, m, 3, 2);
  }

  /** `p$a m$b`, with no other `$` and `m` not starting with a digit, uses `a` then `b`. */
  lemma TwoPlaceholderNumbers(p: string, m: string, a: nat, b: nat)
    requires NoDollar(p) && NoDollar(m) && (|m| == 0 || !IsDigit(m[0]))
    ensures PlaceholderNumbers(p + Placeholder(a) + m + Placeholder(b)) == [a, b]
  {
    var tail := m + Placeholder(b);
    AppendAssoc(p + Placeholder(a), m, Placeholder(b));
    AppendAssoc(p, Placeholder(a), tail);
    NumbersAfterDollarFree(p, Placeholder(a) + tail);
    assert |tail| > 0 && tail[0] == (if |m| == 0 then '$' else m[0]);
    PlaceholderThen(a, tail);
    NumbersAfterDollarFree(m, Placeholder(b));
    assert Placeholder(b) == Placeholder(b) + "";
    PlaceholderThen(b, "");
  }

}
