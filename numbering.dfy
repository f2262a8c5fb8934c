/**
 * How a list of conditions is numbered: one after the other, each from the
 * counter its predecessors left. Stated for any way of numbering a single
 * condition, so the same fold serves `Where` and a group's children.
 */
module Numbering {
  import opened Types

  /** One condition after numbering: its text and the values it binds, in order. */
  datatype Rendered = Rendered(fragment: string, values: seq<Value>)

  /** A list of conditions after numbering: one text part per condition, and all bound values. */
  datatype Numbered = Numbered(parts: seq<string>, values: seq<Value>)

  /**
   * Conditions numbered from `c` one after the other by `render`: each is
   * numbered from the counter its predecessors left, its text becomes one
   * part and its values are appended. `Where` numbers the conditions given
   * to it this way, and a group its children.
   */
  function NumberEach(render: (QueryCondition, nat) -> Rendered, conds: seq<QueryCondition>, c: nat): (n: Numbered)
    ensures |n.parts| == |conds|
    decreases |conds|
  {
    if |conds| == 0 then Numbered([], [])
    else
      var r := render(conds[0], c);
      var rest := NumberEach(render, conds[1..], c + |r.values|);
      Numbered([r.fragment] + rest.parts, r.values + rest.values)
  }

  lemma AppendAssoc<T>(a: seq<T>, b: seq<T>, c: seq<T>)
    ensures a + b + c == a + (b + c)
  {
  }

  /**
   * Numbering `a + b` from `c` is numbering `a` from `c` and then `b` from
   * where `a` stopped: the counter is never rewound, and two successive
   * `Where` calls read as one. Which numbers each text then uses is taken up
   * in `PlaceholderUse`.
   */
  lemma {:induction false} NumberEachAppend(render: (QueryCondition, nat) -> Rendered,
                                            a: seq<QueryCondition>, b: seq<QueryCondition>, c: nat)
    ensures var ra := NumberEach(render, a, c);
            var rb := NumberEach(render, b, c + |ra.values|);
            NumberEach(render, a + b, c) == Numbered(ra.parts + rb.parts, ra.values + rb.values)
    decreases |a|
  {
    if |a| == 0 {
      assert a + b == b;
    } else {
      var r := render(a[0], c);
      var c' := c + |r.values|;
      assert (a + b)[0] == a[0];
      assert (a + b)[1..] == a[1..] + b;
      NumberEachAppend(render, a[1..], b, c');
      var rest := NumberEach(render, a[1..], c');
      var rb := NumberEach(render, b, c' + |rest.values|);
      assert NumberEach(render, a, c) == Numbered([r.fragment] + rest.parts, r.values + rest.values);
      assert NumberEach(render, a + b, c) == Numbered([r.fragment] + (rest.parts + rb.parts), r.values + (rest.values + rb.values));
      AppendAssoc([r.fragment], rest.parts, rb.parts);
      AppendAssoc(r.values, rest.values, rb.values);
    }
  }

  /** Numbering one more condition extends the parts and values of its predecessors. */
  lemma NumberEachSnoc(render: (QueryCondition, nat) -> Rendered, conds: seq<QueryCondition>, c: nat, k: nat)
    requires k < |conds|
    ensures var before := NumberEach(render, conds[..k], c);
            var r := render(conds[k], c + |before.values|);
            NumberEach(render, conds[..k + 1], c) == Numbered(before.parts + [r.fragment], before.values + r.values)
  {
    assert conds[..k + 1] == conds[..k] + [conds[k]];
    NumberEachAppend(render, conds[..k], [conds[k]], c);
    var before := NumberEach(render, conds[..k], c);
    var r := render(conds[k], c + |before.values|);
    assert [conds[k]][1..] == [];
    assert NumberEach(render, [conds[k]], c + |before.values|) == Numbered([r.fragment], r.values);
  }

  /** `NumberEachSnoc` for a loop that keeps the numbering so far in `n` and the next rendering in `r`. */
  lemma NumberEachStep(render: (QueryCondition, nat) -> Rendered, conds: seq<QueryCondition>, c: nat, k: nat,
                       n: Numbered, r: Rendered)
    requires k < |conds|
    requires n == NumberEach(render, conds[..k], c)
    requires r == render(conds[k], c + |n.values|)
    ensures NumberEach(render, conds[..k + 1], c) == Numbered(n.parts + [r.fragment], n.values + r.values)
  {
    NumberEachSnoc(render, conds, c, k);
  }

  /**
   * The i-th condition is numbered from the counter left by the ones before
   * it, and its text is the i-th part: numbering follows visit order.
   */
  lemma NumberEachAt(render: (QueryCondition, nat) -> Rendered, conds: seq<QueryCondition>, c: nat, i: nat)
    requires i < |conds|
    ensures var before := NumberEach(render, conds[..i], c);
            NumberEach(render, conds, c).parts[i] == render(conds[i], c + |before.values|).fragment
  {
    NumberEachSnoc(render, conds, c, i);
    NumberEachAppend(render, conds[..i + 1], conds[i + 1..], c);
    assert conds[..i + 1] + conds[i + 1..] == conds;
  }
}
