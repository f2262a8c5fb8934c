/**
 * The placeholder-numbering engine behind `Where`, stated as functions of the
 * counter: how one condition is rewritten (its `$1` marker renumbered, an
 * `IN $1` marker expanded into one placeholder per list item, a group's
 * children joined and parenthesised) and which values it binds. The
 * `QueryBuilder.Where` method in the Builder module is proved to follow it.
 * Also the group constructors `Or` and `And`.
 */
module Conditions {
  import opened Types
  import opened Strings
  import opened Numbering

  /** `Or`: a group whose children are joined by `OR`. */
  function Or(conditions: seq<QueryCondition>): (r: QueryCondition)
    ensures r.Group? && r.groupConds == conditions && r.groupOp == "OR"
  {
    Group(conditions, "OR")
  }

  /** `And`: a group whose children are joined by `AND`. */
  function And(conditions: seq<QueryCondition>): (r: QueryCondition)
    ensures r.Group? && r.groupConds == conditions && r.groupOp == "AND"
  {
    Group(conditions, "AND")
  }

  /** `fmt.Sprintf("$%d", n)`. */
  function Placeholder(n: nat): string
  {
    "$" + NatToDecimal(n)
  }

  /** Distinct numbers give distinct placeholders. */
  lemma PlaceholderInjective(m: nat, n: nat)
    requires Placeholder(m) == Placeholder(n)
    ensures m == n
  {
    assert NatToDecimal(m) == Placeholder(m)[1..];
    assert NatToDecimal(n) == Placeholder(n)[1..];
    DecimalInjective(m, n);
  }

  /** The placeholders `$c, $c+1, ..., $c+n-1`. */
  function PlaceholderList(c: nat, n: nat): (ps: seq<string>)
    ensures |ps| == n
  {
    seq(n, i requires 0 <= i < n => Placeholder(c + i))
  }

  /** The placeholders an `IN` list receives are pairwise distinct. */
  lemma PlaceholdersDistinct(c: nat, n: nat)
    ensures forall i, j :: 0 <= i < j < n ==> PlaceholderList(c, n)[i] != PlaceholderList(c, n)[j]
  {
    var ps := PlaceholderList(c, n);
    forall i, j | 0 <= i < j < n ensures ps[i] != ps[j] {
      if ps[i] == ps[j] {
        PlaceholderInjective(c + i, c + j);
      }
    }
  }

  /** `IN $1` rewritten into `IN ($c, ..., $c+n-1)`; with `n == 0` into `IN ()`. */
  function ExpandIn(condition: string, c: nat, n: nat): string
  {
    ReplaceFirst(condition, "IN $1", "IN (" + Join(PlaceholderList(c, n), ", ") + ")")
  }

  /** The items of a `[]int` as bound values, in order. */
  function IntValues(v: seq<int>): (r: seq<Value>)
    ensures |r| == |v|
  {
    seq(|v|, i requires 0 <= i < |v| => IntV(v[i]))
  }

  /** The items of a `[]string` as bound values, in order. */
  function StrValues(v: seq<string>): (r: seq<Value>)
    ensures |r| == |v|
  {
    seq(|v|, i requires 0 <= i < |v| => StrV(v[i]))
  }

  /**
   * One leaf numbered from counter `c`: a template with `IN $1` and a list
   * value is expanded; a template with `$1` and `$2` and a `[]string` value
   * gets two consecutive numbers; anything else has its first `$1`
   * renumbered and binds its value as one scalar (even `Nil`).
   */
  function RenderLeaf(condition: string, value: Value, c: nat): Rendered
  {
    if Contains(condition, "IN $1") then
      match value
      case IntList(v) => Rendered(ExpandIn(condition, c, |v|), IntValues(v))
      case StrList(v) => Rendered(ExpandIn(condition, c, |v|), StrValues(v))
      case _ => Rendered(ReplaceFirst(condition, "$1", Placeholder(c)), [value])
    else if value.StrList? && Contains(condition, "$1") && Contains(condition, "$2") then
      Rendered(ReplaceFirst(ReplaceFirst(condition, "$1", Placeholder(c)), "$2", Placeholder(c + 1)),
               StrValues(value.strs))
    else
      Rendered(ReplaceFirst(condition, "$1", Placeholder(c)), [value])
  }

  /** A group reads each child through the child's own template: a nested group has none. */
  function ChildCondition(q: QueryCondition): string
  {
    if q.Leaf? then q.condition else ""
  }

  /** A group reads each child through the child's own value: a nested group has none. */
  function ChildValue(q: QueryCondition): Value
  {
    if q.Leaf? then q.value else Nil
  }

  /** A child of a group, numbered from `c`. */
  function RenderChild(q: QueryCondition, c: nat): Rendered
  {
    RenderLeaf(ChildCondition(q), ChildValue(q), c)
  }

  /** One condition given to `Where`, numbered from `c`. */
  function RenderCondition(q: QueryCondition, c: nat): Rendered
  {
    match q
    case Leaf(condition, value, _) => RenderLeaf(condition, value, c)
    case Group(children, op) =>
      var n := NumberEach(RenderChild, children, c);
      Rendered("(" + Join(n.parts, " " + op + " ") + ")", n.values)
  }

  /** A group's rendering, given the numbering `n` of its children. */
  lemma GroupRendering(children: seq<QueryCondition>, op: string, c: nat, n: Numbered)
    requires n == NumberEach(RenderChild, children, c)
    ensures RenderCondition(Group(children, op), c) == Rendered("(" + Join(n.parts, " " + op + " ") + ")", n.values)
  {
  }

  // ---------------------------------------------------------------------------
  // How templates without stray markers are rewritten

  /** No `$` in `s`: neither a column name nor fixed SQL text around a marker holds one. */
  predicate NoDollar(s: string)
  {
    forall i :: 0 <= i < |s| ==> s[i] != '$'
  }

  /** `s` ends with the text `IN `, the three characters before an `IN $1` marker. */
  predicate EndsWithIn(s: string)
  {
    |s| >= 3 && s[|s| - 3..] == "IN "
  }

  /**
   * When `p` has no `$` and `pat` has its first `$` at index `k`, the first
   * occurrence of `pat` in `p + pat + rest` is the one right after `p`.
   */
  lemma FirstMarkerAfter(p: string, pat: string, rest: string, k: nat)
    requires k < |pat| && pat[k] == '$' && NoDollar(p) && NoDollar(pat[..k])
    ensures FirstAt(p + pat + rest, pat, |p|)
  {
    var s := p + pat + rest;
    assert s[|p|..|p| + |pat|] == pat;
    forall j: nat | j < |p| ensures !OccursAt(s, pat, j) {
      if j + |pat| <= |s| {
        assert s[j..j + |pat|][k] == s[j + k];
        if j + k < |p| {
          assert s[j + k] == p[j + k];
        } else {
          assert s[j + k] == pat[..k][j + k - |p|];
        }
        assert s[j + k] != '$';
      }
    }
  }

  /** A `$`-free text contains no marker. */
  lemma NoMarkerWithoutDollar(t: string, pat: string, k: nat)
    requires k < |pat| && pat[k] == '$' && NoDollar(t)
    ensures !Contains(t, pat)
  {
    IndexOfFirst(t, pat);
    forall j: nat ensures !OccursAt(t, pat, j) {
      if j + |pat| <= |t| {
        assert t[j..j + |pat|][k] == t[j + k];
      }
    }
  }

  /**
   * In `p + "$1" + q` with no other `$`, the only `$` is at `|p|`: there is
   * no `$2`, and no `IN $1` unless `p` ends with `IN `.
   */
  lemma SingleMarkerShape(p: string, q: string)
    requires NoDollar(p) && NoDollar(q)
    ensures !Contains(p + "$1" + q, "$2")
    ensures !EndsWithIn(p) ==> !Contains(p + "$1" + q, "IN $1")
  {
    var s := p + "$1" + q;
    IndexOfFirst(s, "$2");
    IndexOfFirst(s, "IN $1");
    forall j | 0 <= j < |s| && j != |p| ensures s[j] != '$' {
      if j < |p| {
        assert s[j] == p[j];
      } else if j > |p| + 1 {
        assert s[j] == q[j - |p| - 2];
      }
    }
    assert s[|p| + 1] == '1';
    forall j: nat ensures !OccursAt(s, "$2", j) {
      if j + 2 <= |s| {
        assert s[j..j + 2][0] == s[j];
        assert s[j..j + 2][1] == s[j + 1];
      }
    }
    if !EndsWithIn(p) {
      forall j: nat ensures !OccursAt(s, "IN $1", j) {
        if j + 5 <= |s| && s[j + 3] == '$' {
          assert s[j..j + 5][..3] == s[j..j + 3] == p[|p| - 3..];
        } else if j + 5 <= |s| {
          assert s[j..j + 5][3] == s[j + 3];
        }
      }
    }
  }

  /**
   * A scalar template `p + "$1" + q` binds its value to `$c`, which takes the
   * place of the marker; nothing else in the text changes.
   */
  lemma ScalarLeafRendering(p: string, q: string, value: Value, c: nat)
    requires NoDollar(p) && NoDollar(q) && !EndsWithIn(p)
    ensures RenderLeaf(p + "$1" + q, value, c) == Rendered(p + Placeholder(c) + q, [value])
  {
    SingleMarkerShape(p, q);
    FirstMarkerAfter(p, "$1", q, 0);
    ReplaceFirstAt(p + "$1" + q, "$1", Placeholder(c), |p|);
    assert (p + "$1" + q)[..|p|] == p;
    assert (p + "$1" + q)[|p| + 2..] == q;
  }

  /** The number of items of a list value. */
  function ListLength(value: Value): nat
    requires value.IntList? || value.StrList?
  {
    if value.IntList? then |value.ints| else |value.strs|
  }

  /** The items of a list value, as bound values in order. */
  function ListItems(value: Value): seq<Value>
    requires value.IntList? || value.StrList?
  {
    if value.IntList? then IntValues(value.ints) else StrValues(value.strs)
  }

  /** In `p + "IN $1"` the marker is found right after `p` and expanded there. */
  lemma ExpandInAfter(p: string, c: nat, n: nat)
    requires NoDollar(p)
    ensures Contains(p + "IN $1", "IN $1")
    ensures ExpandIn(p + "IN $1", c, n) == p + "IN (" + Join(PlaceholderList(c, n), ", ") + ")"
  {
    var s := p + "IN $1";
    assert "IN $1"[..3] == "IN ";
    FirstMarkerAfter(p, "IN $1", "", 3);
    assert s == p + "IN $1" + "";
    ReplaceFirstAt(s, "IN $1", "IN (" + Join(PlaceholderList(c, n), ", ") + ")", |p|);
    assert s[..|p|] == p;
    assert s[|p| + 5..] == "";
  }

  /**
   * A membership template `p + "IN $1"` with a list of n items becomes
   * `p + "IN ($c, ..., $c+n-1)"` and binds the n items in order; an empty
   * list gives `IN ()` and binds nothing.
   */
  lemma InListRendering(p: string, value: Value, c: nat)
    requires NoDollar(p) && (value.IntList? || value.StrList?)
    ensures RenderLeaf(p + "IN $1", value, c) ==
            Rendered(p + "IN (" + Join(PlaceholderList(c, ListLength(value)), ", ") + ")", ListItems(value))
  {
    ExpandInAfter(p, c, ListLength(value));
  }

  /**
   * A template without any marker (the empty condition, an inlined date
   * range, a nested group read as a child) is kept as it is, yet still
   * binds its value, `Nil` included, and takes one number.
   */
  lemma MarkerFreeLeafRendering(t: string, value: Value, c: nat)
    requires NoDollar(t)
    ensures RenderLeaf(t, value, c) == Rendered(t, [value])
  {
    NoMarkerWithoutDollar(t, "IN $1", 3);
    NoMarkerWithoutDollar(t, "$1", 0);
  }

  /** An empty group renders as `()` and binds nothing. */
  lemma EmptyGroupRendering(op: string, c: nat)
    ensures RenderCondition(Group([], op), c) == Rendered("()", [])
  {
  }

  /**
   * A group nested inside a group is not descended into: it counts as a
   * child with an empty text and binds `Nil`.
   */
  lemma NestedGroupChild(inner: seq<QueryCondition>, op: string, c: nat)
    ensures NumberEach(RenderChild, [Group(inner, op)], c) == Numbered([""], [Nil])
  {
    assert [Group(inner, op)][..0] == [];
    MarkerFreeLeafRendering("", Nil, c);
  }

  /** The empty condition, given to `Where`, adds an empty text and binds `Nil`. */
  lemma EmptyConditionRendering(c: nat)
    ensures RenderCondition(EmptyCondition, c) == Rendered("", [Nil])
  {
    MarkerFreeLeafRendering("", Nil, c);
  }
}
