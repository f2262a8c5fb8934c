/**
 * The query builder object: a base statement plus the clauses added to it,
 * the values bound so far and the next placeholder number. `Where` numbers
 * conditions into it, `SortBy`, `Limit` and `Offset` record the tail
 * clauses, and `Apply` compiles the whole into one SQL string.
 */
module Builder {
  import opened Types
  import opened Strings
  import opened Numbering
  import opened Conditions
  import opened Sorting

  // ---------------------------------------------------------------------------
  // Trimming the base statement

  /** The characters Go's `unicode.IsSpace` accepts, which `strings.TrimSpace` removes. */
  predicate IsSpace(c: char)
  {
    c == ' ' || c == '\t' || c == '\n' || c == '\U{000B}' || c == '\U{000C}' || c == '\r' ||
    c == '\U{0085}' || c == '\U{00A0}' || c == '\U{1680}' || ('\U{2000}' <= c <= '\U{200A}') ||
    c == '\U{2028}' || c == '\U{2029}' || c == '\U{202F}' || c == '\U{205F}' || c == '\U{3000}'
  }

  /** The length of the run of white space that starts `s`. */
  function LeadingSpaces(s: string): (n: nat)
    ensures n <= |s|
    ensures forall i :: 0 <= i < n ==> IsSpace(s[i])
    ensures n < |s| ==> !IsSpace(s[n])
  {
    if |s| == 0 || !IsSpace(s[0]) then 0 else 1 + LeadingSpaces(s[1..])
  }

  /** The length of the run of white space that ends `s`. */
  function TrailingSpaces(s: string): (n: nat)
    ensures n <= |s|
    ensures forall i :: |s| - n <= i < |s| ==> IsSpace(s[i])
    ensures n < |s| ==> !IsSpace(s[|s| - 1 - n])
  {
    if |s| == 0 || !IsSpace(s[|s| - 1]) then 0 else 1 + TrailingSpaces(s[..|s| - 1])
  }

  /** Go's `strings.TrimSpace`: drops the white space at both ends. */
  function TrimSpace(s: string): string
  {
    var t := s[LeadingSpaces(s)..];
    t[..|t| - TrailingSpaces(t)]
  }

  /**
   * The trimmed text is a slice of the input between two runs of white
   * space, and it neither starts nor ends with white space.
   */
  lemma TrimSpaceShape(s: string)
    ensures var r := TrimSpace(s);
            var k := LeadingSpaces(s);
            && k + |r| <= |s|
            && r == s[k..k + |r|]
            && (forall i :: 0 <= i < k ==> IsSpace(s[i]))
            && (forall i :: k + |r| <= i < |s| ==> IsSpace(s[i]))
            && (|r| > 0 ==> !IsSpace(r[0]) && !IsSpace(r[|r| - 1]))
  {
    var k := LeadingSpaces(s);
    var t := s[k..];
    var m := TrailingSpaces(t);
    var r := TrimSpace(s);
    assert r == t[..|t| - m];
    assert r == s[k..k + |r|];
    forall i | k + |r| <= i < |s| ensures IsSpace(s[i]) {
      assert s[i] == t[i - k];
    }
    if |r| > 0 {
      assert r[0] == t[0];
      assert r[|r| - 1] == t[|t| - 1 - m];
    }
  }

  /** A text that neither starts nor ends with white space is its own trimming. */
  lemma TrimSpaceKeepsTrimmed(s: string)
    requires |s| > 0 ==> !IsSpace(s[0]) && !IsSpace(s[|s| - 1])
    ensures TrimSpace(s) == s
  {
    assert s[0..] == s;
    if |s| > 0 {
      assert TrailingSpaces(s) == 0;
    }
  }

  /** Trimming twice is trimming once. */
  lemma TrimSpaceIdempotent(s: string)
    ensures TrimSpace(TrimSpace(s)) == TrimSpace(s)
  {
    TrimSpaceShape(s);
    TrimSpaceKeepsTrimmed(TrimSpace(s));
  }

  // ---------------------------------------------------------------------------
  // The compiled statement

  /**
   * The `WHERE` clause: absent without conditions, else the first condition
   * and then every later one preceded by its own connective.
   */
  function WhereClause(conds: seq<string>, ops: seq<string>): string
    requires |ops| == |conds|
    decreases |conds|
  {
    var n := |conds|;
    if n == 0 then ""
    else if n == 1 then " WHERE " + conds[0]
    else WhereClause(conds[..n - 1], ops[..n - 1]) + " " + ops[n - 1] + " " + conds[n - 1]
  }

  /** The clause is present exactly when there are conditions, and it then opens with the first one. */
  lemma {:induction false} WhereClausePresent(conds: seq<string>, ops: seq<string>)
    requires |ops| == |conds|
    ensures WhereClause(conds, ops) == "" <==> |conds| == 0
    ensures |conds| > 0 ==> |WhereClause(conds, ops)| >= 7 + |conds[0]| &&
                            WhereClause(conds, ops)[..7 + |conds[0]|] == " WHERE " + conds[0]
    decreases |conds|
  {
    var n := |conds|;
    if n > 1 {
      WhereClausePresent(conds[..n - 1], ops[..n - 1]);
      var w := WhereClause(conds[..n - 1], ops[..n - 1]);
      assert conds[..n - 1][0] == conds[0];
      assert (w + " " + ops[n - 1] + " " + conds[n - 1])[..7 + |conds[0]|] == w[..7 + |conds[0]|];
    }
  }

  /** The connectives `Where` records: one `AND` per condition. */
  predicate AllAnd(ops: seq<string>)
  {
    forall i :: 0 <= i < |ops| ==> ops[i] == "AND"
  }

  /** With only `AND` connectives the clause is the conditions joined by ` AND `. */
  lemma {:induction false} WhereClauseAllAnd(conds: seq<string>, ops: seq<string>)
    requires |ops| == |conds| && AllAnd(ops)
    ensures WhereClause(conds, ops) == if |conds| == 0 then "" else " WHERE " + Join(conds, " AND ")
    decreases |conds|
  {
    var n := |conds|;
    if n > 1 {
      var init := conds[..n - 1];
      var x := conds[n - 1];
      WhereClauseAllAnd(init, ops[..n - 1]);
      WhereClauseLast(conds, ops);
      assert init + [x] == conds;
      JoinSnoc(init, x, " AND ");
      WhereAndStep(Join(init, " AND "), ops[n - 1], x);
    }
  }

  /** The clause for `n > 1` conditions is the clause for the first `n - 1`, the last connective and the last condition. */
  lemma WhereClauseLast(conds: seq<string>, ops: seq<string>)
    requires |ops| == |conds| > 1
    ensures WhereClause(conds, ops) ==
            WhereClause(conds[..|conds| - 1], ops[..|conds| - 1]) + " " + ops[|conds| - 1] + " " + conds[|conds| - 1]
  {
  }

  /** An `AND` connective between the clause so far and the next condition. */
  lemma WhereAndStep(j: string, op: string, x: string)
    requires op == "AND"
    ensures " WHERE " + j + " " + op + " " + x == " WHERE " + (j + " AND " + x)
  {
    assert " " + op + " " == " AND ";
  }

  /** ` LIMIT n` when a non-negative limit is set, else nothing. */
  function LimitClause(limit: int): string
  {
    if limit >= 0 then " LIMIT " + NatToDecimal(limit) else ""
  }

  /** ` OFFSET n` when a non-negative offset is set, else nothing. */
  function OffsetClause(offset: int): string
  {
    if offset >= 0 then " OFFSET " + NatToDecimal(offset) else ""
  }

  /**
   * The statement `Apply` produces: the base, then `WHERE`, `ORDER BY`,
   * `LIMIT` and `OFFSET`, each only when present, then `;`.
   */
  function Compile(base: string, conds: seq<string>, ops: seq<string>, sorts: seq<SortField>,
                   limit: int, offset: int): string
    requires |ops| == |conds|
  {
    base + WhereClause(conds, ops) + OrderByClause(sorts) + LimitClause(limit) + OffsetClause(offset) + ";"
  }

  /** A builder with nothing added compiles to its base followed by `;`. */
  lemma CompileBare(base: string)
    ensures Compile(base, [], [], [], -1, -1) == base + ";"
  {
  }

  /** An offset without a limit gives `OFFSET` and no `LIMIT`. */
  lemma OffsetWithoutLimit(base: string)
    ensures Compile(base, [], [], [], -1, 20) == base + " OFFSET 20;"
  {
    assert NatToDecimal(20) == "20";
  }

  /** A limit and an offset appear in that order, limit first. */
  lemma LimitThenOffset(base: string)
    ensures Compile(base, [], [], [], 10, 20) == base + " LIMIT 10 OFFSET 20;"
  {
    LimitTen();
    OffsetTwenty();
    assert WhereClause([], []) == "" && OrderByClause([]) == "";
    assert base + "" + "" + " LIMIT 10" + " OFFSET 20" + ";" == base + " LIMIT 10 OFFSET 20;";
  }

  lemma OffsetTwenty()
    ensures OffsetClause(20) == " OFFSET 20"
  {
    assert NatToDecimal(20) == "20";
  }

  lemma LimitTen()
    ensures LimitClause(10) == " LIMIT 10"
  {
    assert NatToDecimal(10) == "10";
  }

  // ---------------------------------------------------------------------------
  // Formatting bound values for display

  /** `fmt.Sprintf("'%s'", s)`. */
  function Quote(s: string): string
  {
    "'" + s + "'"
  }

  function QuotedAll(strs: seq<string>): (r: seq<string>)
    ensures |r| == |strs|
    ensures forall i :: 0 <= i < |strs| ==> r[i] == Quote(strs[i])
  {
    seq(|strs|, i requires 0 <= i < |strs| => Quote(strs[i]))
  }

  /**
   * A bound value as `GetFormattedValues` shows it: a string in single
   * quotes, a `[]string` as a parenthesised list of quoted strings, and
   * anything else as it is.
   */
  function FormatValue(v: Value): Value
  {
    match v
    case StrV(s) => StrV(Quote(s))
    case StrList(strs) => StrV("(" + Join(QuotedAll(strs), ", ") + ")")
    case _ => v
  }

  /** The quoted text of a string starts and ends with a quote, and the original sits between them. */
  lemma FormatStringRoundTrip(s: string)
    ensures var f := FormatValue(StrV(s));
            f.StrV? && |f.s| == |s| + 2 && f.s[0] == '\'' && f.s[|f.s| - 1] == '\'' && f.s[1..|f.s| - 1] == s
  {
    var f := FormatValue(StrV(s));
    assert f.s == "'" + s + "'";
  }

  /** A list of one string shows as that string quoted, in parentheses. */
  lemma FormatSingletonList(s: string)
    ensures FormatValue(StrList([s])) == StrV("('" + s + "')")
  {
    assert QuotedAll([s]) == [Quote(s)];
  }

  /** Integers, integer lists and `Nil` are shown as they are. */
  lemma FormatKeepsNonStrings(v: Value)
    requires !v.StrV? && !v.StrList?
    ensures FormatValue(v) == v
  {
  }

  // ---------------------------------------------------------------------------
  // The builder

  /** The operators list a call to `Where` with n conditions appends. */
  function AndOperators(n: nat): (ops: seq<string>)
    ensures |ops| == n && AllAnd(ops)
  {
    seq(n, _ => "AND")
  }

  lemma AndOperatorsSnoc(n: nat)
    ensures AndOperators(n) + ["AND"] == AndOperators(n + 1)
  {
  }

  lemma AllAndAppend(a: seq<string>, b: seq<string>)
    requires AllAnd(a) && AllAnd(b)
    ensures AllAnd(a + b)
  {
  }

  class QueryBuilder {
    var baseQuery: string
    var conditions: seq<string>
    var operators: seq<string>
    var values: seq<Value>
    var argCounter: nat
    var limitValue: int
    var offsetValue: int
    var sortFields: seq<SortField>

    /**
     * Every bound value has used exactly one placeholder number, so the next
     * number is one past the count; each condition has its connective, and
     * every connective is `AND`.
     */
    predicate Valid()
      reads this
    {
      argCounter == |values| + 1 && |operators| == |conditions| && AllAnd(operators)
    }

    /** `NewQueryBuilder`: the trimmed base, numbering from 1, no limit and no offset. */
    constructor (query: string)
      ensures Valid()
      ensures baseQuery == TrimSpace(query)
      ensures conditions == [] && operators == [] && values == [] && sortFields == []
      ensures argCounter == 1 && limitValue == -1 && offsetValue == -1
    {
      baseQuery := TrimSpace(query);
      conditions := [];
      operators := [];
      values := [];
      argCounter := 1;
      limitValue := -1;
      offsetValue := -1;
      sortFields := [];
    }

    /** The placeholders `$c` to `$c+n-1`, built one by one. */
    static method Placeholders(c: nat, n: nat) returns (ps: seq<string>)
      ensures ps == PlaceholderList(c, n)
    {
      ps := [];
      var i := 0;
      while i < n
        invariant 0 <= i <= n
        invariant ps == PlaceholderList(c, i)
      {
        ps := ps + [Placeholder(c + i)];
        i := i + 1;
      }
    }

    /** Binds the items of a list value one by one, in order. */
    method BindItems(items: seq<Value>)
      modifies this`values
      ensures values == old(values) + items
    {
      var i := 0;
      while i < |items|
        invariant 0 <= i <= |items|
        invariant values == old(values) + items[..i]
      {
        values := values + [items[i]];
        i := i + 1;
      }
      assert items[..i] == items;
    }

    /**
     * Numbers one leaf template from the current counter, binds its values
     * and advances the counter by as many numbers as it bound.
     */
    method PlaceLeaf(condition: string, value: Value) returns (fragment: string)
      modifies this`values, this`argCounter
      ensures var r := RenderLeaf(condition, value, old(argCounter));
              fragment == r.fragment && values == old(values) + r.values &&
              argCounter == old(argCounter) + |r.values|
    {
      if Contains(condition, "IN $1") {
        match value {
          case IntList(v) =>
            var ps := Placeholders(argCounter, |v|);
            fragment := ReplaceFirst(condition, "IN $1", "IN (" + Join(ps, ", ") + ")");
            BindItems(IntValues(v));
            argCounter := argCounter + |v|;
          case StrList(v) =>
            var ps := Placeholders(argCounter, |v|);
            fragment := ReplaceFirst(condition, "IN $1", "IN (" + Join(ps, ", ") + ")");
            BindItems(StrValues(v));
            argCounter := argCounter + |v|;
          case _ =>
            fragment := ReplaceFirst(condition, "$1", Placeholder(argCounter));
            values := values + [value];
            argCounter := argCounter + 1;
        }
      } else if value.StrList? && Contains(condition, "$1") && Contains(condition, "$2") {
        var p1 := Placeholder(argCounter);
        var p2 := Placeholder(argCounter + 1);
        fragment := ReplaceFirst(condition, "$1", p1);
        fragment := ReplaceFirst(fragment, "$2", p2);
        BindItems(StrValues(value.strs));
        argCounter := argCounter + |value.strs|;
      } else {
        fragment := ReplaceFirst(condition, "$1", Placeholder(argCounter));
        values := values + [value];
        argCounter := argCounter + 1;
      }
    }

    /**
     * Numbers one condition given to `Where` and records it with the
     * connective `AND`; a group numbers its children in order and records
     * them as one parenthesised text.
     */
    method AddCondition(q: QueryCondition) returns (ghost r: Rendered)
      modifies this`conditions, this`operators, this`values, this`argCounter
      ensures r == RenderCondition(q, old(argCounter))
      ensures conditions == old(conditions) + [r.fragment]
      ensures operators == old(operators) + ["AND"]
      ensures values == old(values) + r.values
      ensures argCounter == old(argCounter) + |r.values|
    {
      if q.Group? {
        r := AddGroup(q.groupConds, q.groupOp);
      } else {
        r := RenderCondition(q, argCounter);
        var fragment := PlaceLeaf(q.condition, q.value);
        conditions := conditions + [fragment];
        operators := operators + ["AND"];
      }
    }

    /** The group branch of `AddCondition`: children numbered in order, recorded as one text. */
    method AddGroup(children: seq<QueryCondition>, op: string) returns (ghost r: Rendered)
      modifies this`conditions, this`operators, this`values, this`argCounter
      ensures r == RenderCondition(Group(children, op), old(argCounter))
      ensures conditions == old(conditions) + [r.fragment]
      ensures operators == old(operators) + ["AND"]
      ensures values == old(values) + r.values
      ensures argCounter == old(argCounter) + |r.values|
    {
      var groupParts: seq<string> := [];
      var j := 0;
      ghost var n := Numbered([], []);
      while j < |children|
        invariant 0 <= j <= |children|
        invariant n == NumberEach(RenderChild, children[..j], old(argCounter))
        invariant groupParts == n.parts
        invariant values == old(values) + n.values
        invariant argCounter == old(argCounter) + |n.values|
        invariant conditions == old(conditions) && operators == old(operators)
      {
        var part;
        part, n := PlaceChild(children, j, old(argCounter), old(values), n);
        groupParts := groupParts + [part];
        j := j + 1;
      }
      assert children[..j] == children;
      r := Rendered("(" + Join(n.parts, " " + op + " ") + ")", n.values);
      GroupRendering(children, op, old(argCounter), n);
      conditions := conditions + ["(" + Join(groupParts, " " + op + " ") + ")"];
      operators := operators + ["AND"];
    }

    /** One turn of `AddGroup`'s loop: the `j`-th child is numbered from where the first `j` stopped. */
    method PlaceChild(children: seq<QueryCondition>, j: nat, ghost c0: nat, ghost values0: seq<Value>,
                      ghost n: Numbered)
      returns (part: string, ghost n': Numbered)
      requires j < |children| && n == NumberEach(RenderChild, children[..j], c0)
      requires values == values0 + n.values && argCounter == c0 + |n.values|
      modifies this`values, this`argCounter
      ensures n' == NumberEach(RenderChild, children[..j + 1], c0) && n'.parts == n.parts + [part]
      ensures values == values0 + n'.values && argCounter == c0 + |n'.values|
    {
      ghost var leaf := RenderChild(children[j], argCounter);
      NumberEachStep(RenderChild, children, c0, j, n, leaf);
      AppendAssoc(values0, n.values, leaf.values);
      part := PlaceLeaf(ChildCondition(children[j]), ChildValue(children[j]));
      n' := Numbered(n.parts + [leaf.fragment], n.values + leaf.values);
    }

    /**
     * `Where`: numbers the conditions in order from the current counter,
     * appends one text and one `AND` per condition and all the values they
     * bind, and advances the counter past them; nothing recorded earlier
     * changes.
     */
    method Where(conds: seq<QueryCondition>) returns (qb: QueryBuilder)
      requires Valid()
      modifies this`conditions, this`operators, this`values, this`argCounter
      ensures qb == this && Valid()
      ensures var n := NumberEach(RenderCondition, conds, old(argCounter));
              && conditions == old(conditions) + n.parts
              && operators == old(operators) + AndOperators(|conds|)
              && values == old(values) + n.values
              && argCounter == old(argCounter) + |n.values|
    {
      var k := 0;
      ghost var n := Numbered([], []);
      while k < |conds|
        invariant 0 <= k <= |conds|
        invariant n == NumberEach(RenderCondition, conds[..k], old(argCounter))
        invariant conditions == old(conditions) + n.parts
        invariant operators == old(operators) + AndOperators(k)
        invariant values == old(values) + n.values
        invariant argCounter == old(argCounter) + |n.values|
      {
        n := WhereStep(conds, k, old(argCounter), old(conditions), old(operators), old(values), n);
        k := k + 1;
      }
      assert conds[..k] == conds;
      AllAndAppend(old(operators), AndOperators(k));
      qb := this;
    }

    /**
     * One turn of `Where`'s loop: the `k`-th condition is added, numbered
     * from where the first `k` stopped.
     */
    method WhereStep(conds: seq<QueryCondition>, k: nat, ghost c0: nat, ghost conditions0: seq<string>,
                     ghost operators0: seq<string>, ghost values0: seq<Value>, ghost n: Numbered)
      returns (ghost n': Numbered)
      requires k < |conds|
      requires n == NumberEach(RenderCondition, conds[..k], c0)
      requires conditions == conditions0 + n.parts && operators == operators0 + AndOperators(k)
      requires values == values0 + n.values && argCounter == c0 + |n.values|
      modifies this`conditions, this`operators, this`values, this`argCounter
      ensures n' == NumberEach(RenderCondition, conds[..k + 1], c0)
      ensures conditions == conditions0 + n'.parts && operators == operators0 + AndOperators(k + 1)
      ensures values == values0 + n'.values && argCounter == c0 + |n'.values|
    {
      ghost var r := AddCondition(conds[k]);
      NumberEachStep(RenderCondition, conds, c0, k, n, r);
      AppendAssoc(values0, n.values, r.values);
      AppendAssoc(conditions0, n.parts, [r.fragment]);
      n' := Numbered(n.parts + [r.fragment], n.values + r.values);
      AndOperatorsSnoc(k);
      AppendAssoc(operators0, AndOperators(k), ["AND"]);
    }

    /** `SortBy`: appends the keys after the ones already recorded. */
    method SortBy(fields: seq<SortField>) returns (qb: QueryBuilder)
      modifies this`sortFields
      ensures qb == this && sortFields == old(sortFields) + fields
    {
      sortFields := sortFields + fields;
      qb := this;
    }

    /** `Limit`: the last limit set is the one used. */
    method Limit(limit: int) returns (qb: QueryBuilder)
      modifies this`limitValue
      ensures qb == this && limitValue == limit
    {
      limitValue := limit;
      qb := this;
    }

    /** `Offset`: the last offset set is the one used. */
    method Offset(offset: int) returns (qb: QueryBuilder)
      modifies this`offsetValue
      ensures qb == this && offsetValue == offset
    {
      offsetValue := offset;
      qb := this;
    }

    /** `Apply`: compiles the recorded clauses in their fixed order; the builder is left as it was. */
    method Apply() returns (query: string)
      requires Valid()
      ensures query == Compile(baseQuery, conditions, operators, sortFields, limitValue, offsetValue)
    {
      var whereClause := BuildWhere(conditions, operators);
      var orderBy := BuildOrderBy(sortFields);
      var limitClause := "";
      if limitValue >= 0 {
        limitClause := " LIMIT " + NatToDecimal(limitValue);
      }
      var offsetClause := "";
      if offsetValue >= 0 {
        offsetClause := " OFFSET " + NatToDecimal(offsetValue);
      }
      query := baseQuery + whereClause + orderBy + limitClause + offsetClause + ";";
    }

    /** The `WHERE` clause `Apply` builds: each condition after the first is preceded by its connective. */
    static method BuildWhere(conditions: seq<string>, operators: seq<string>) returns (clause: string)
      requires |operators| == |conditions|
      ensures clause == WhereClause(conditions, operators)
    {
      clause := "";
      if |conditions| > 0 {
        clause := " WHERE " + conditions[0];
        var i := 1;
        while i < |conditions|
          invariant 1 <= i <= |conditions|
          invariant clause == WhereClause(conditions[..i], operators[..i])
        {
          assert conditions[..i + 1][..i] == conditions[..i];
          assert operators[..i + 1][..i] == operators[..i];
          clause := clause + " " + operators[i] + " " + conditions[i];
          i := i + 1;
        }
        assert conditions[..i] == conditions && operators[..i] == operators;
      }
    }

    /** The `ORDER BY` clause `Apply` builds: each key printed in turn, then joined by commas. */
    static method BuildOrderBy(sortFields: seq<SortField>) returns (clause: string)
      ensures clause == OrderByClause(sortFields)
    {
      clause := "";
      if |sortFields| > 0 {
        var sortParts: seq<string> := [];
        var j := 0;
        while j < |sortFields|
          invariant 0 <= j <= |sortFields|
          invariant sortParts == SortParts(sortFields[..j])
        {
          var sortStr := sortFields[j].field;
          if sortFields[j].direction == SortDesc {
            sortStr := sortStr + " DESC";
          }
          sortParts := sortParts + [sortStr];
          j := j + 1;
        }
        assert sortFields[..j] == sortFields;
        clause := " ORDER BY " + Join(sortParts, ", ");
      }
    }

    /** `GetValues`: the bound values, one per placeholder number handed out. */
    method GetValues() returns (vs: seq<Value>)
      requires Valid()
      ensures vs == values && |vs| == argCounter - 1
    {
      vs := values;
    }

    /** `GetFormattedValues`: every bound value, in order, as `FormatValue` shows it. */
    method GetFormattedValues() returns (formatted: seq<Value>)
      ensures |formatted| == |values|
      ensures forall i :: 0 <= i < |values| ==> formatted[i] == FormatValue(values[i])
    {
      formatted := [];
      var i := 0;
      while i < |values|
        invariant 0 <= i <= |values|
        invariant |formatted| == i
        invariant forall k :: 0 <= k < i ==> formatted[k] == FormatValue(values[k])
      {
        var f: Value;
        match values[i] {
          case StrV(s) =>
            f := StrV(Quote(s));
          case StrList(strs) =>
            var parts: seq<string> := [];
            var j := 0;
            while j < |strs|
              invariant 0 <= j <= |strs|
              invariant parts == QuotedAll(strs[..j])
            {
              parts := parts + [Quote(strs[j])];
              j := j + 1;
            }
            assert strs[..j] == strs;
            f := StrV("(" + Join(parts, ", ") + ")");
          case _ =>
            f := values[i];
        }
        formatted := formatted + [f];
        i := i + 1;
      }
    }
  }
}
