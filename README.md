# query-builder, modelled in Dafny

A model of the Go SQL query builder `querybuilder`. The builder starts from a
base statement. Matchers (`ByIntColumn`, `ByStringColumn`, `ByDateColumn`)
turn a validated column name and its values into a condition whose template
carries the marker `$1`. `Where` numbers those conditions into `$N`
placeholders, expands `IN $1` into one placeholder per list item, wraps a
group (`Or`, `And`) in parentheses, and records the bound values in order.
`SortBy`, `Limit` and `Offset` record the tail clauses. `Apply` compiles base,
`WHERE`, `ORDER BY`, `LIMIT`, `OFFSET` and `;` into one string.

Layout, one module per file:

- `strings.dfy` (`Strings`): the Go standard-library string operations the
  builder relies on. These are `strings.Contains`, `strings.Replace(s, old,
  new, 1)`, `strings.Join` and the decimal `%d`.
- `types.dfy` (`Types`): the option enumerations and the dynamic values Go keeps
  in `any` (`IntV | StrV | IntList | StrList | Nil`). It also holds conditions
  (`Leaf | Group`), sort keys and the one error, an invalid column name.
- `validation.dfy` (`Validation`): the identifier allow-list. The anchored
  pattern is an automaton, proved equal to a character-by-character grammar.
- `matchers.dfy` (`Matchers`): the three matchers. Their option loops are
  folds over a sequence of tagged arguments, and the last option of each
  kind wins.
- `sort.dfy` (`Sorting`): `Sort` and the rendering of `ORDER BY`.
- `numbering.dfy` (`Numbering`): numbering a list of conditions one after
  the other from a counter. `Where` uses this fold over its arguments, and a
  group uses it over its children.
- `conditions.dfy` (`Conditions`): `Or`, `And` and the pure specification of
  how one condition is numbered (`RenderLeaf`, `RenderCondition`). It also
  holds lemmas on how templates without stray markers are rewritten.
- `rendering.dfy` (`Rendering`): what each matcher's condition becomes under
  `Where` for a valid column.
- `placeholder_use.dfy` (`PlaceholderUse`): which `$N` numbers a numbered
  text uses, read as PostgreSQL reads them. Every condition a matcher builds,
  and every `Or`/`And` of such conditions, uses only the numbers of the
  values it binds, in ascending order. So no number is used twice within one
  `Where` call or across successive calls. The two-marker template above is
  the exception.
- `query_builder.dfy` (`Builder`): the `QueryBuilder` class. Its methods
  mirror the Go methods loop for loop and are proved against the pure
  functions above. Its invariant `Valid()` is `|values| == argCounter - 1`,
  one `AND` per condition.

A panic on an invalid column name is modelled as an `Err` result. Every
other input is handled, with no precondition. The model follows the code in
each point below. Only the first one goes against the source's own tests. An
integration test expects a default `LIMIT 10`
(tests/integration/query_builder_pagination_integration_test.go:30-33). The
others are places where a user of the API might expect something different:

- `Apply` adds no default `LIMIT`.
- An empty condition, or a `DateBetween` condition, still takes a
  placeholder number and binds `Nil`.
- `ByIntColumn` with no values gives `col IN ()`, not the empty condition.
- A group's empty children are not skipped.
- A group nested inside a group is read through its own empty template and
  value, so it renders as an empty part binding `Nil`.
- `Where`'s branch for a template with both `$1` and `$2` and a `[]string`
  value (query_builder_conditions.go:47-56, 106-116) is modelled as written.
  It renumbers `$1` first and then the first `$2` it finds. From counter 2,
  that `$2` is the one it has just written, so `a $1 b $2` becomes
  `a $3 b $2`. Two items are bound to `$2` and `$3`, but the text names `$3`
  first. One item advances the counter by one only, so the next condition is
  numbered `$3` as well. No matcher produces such a template, and the
  condition fields are unexported.

## Model

| member | source | states |
|---|---|---|
| Validation.ValidateColumnName | query_builder_validation.go:8-15 | A name passes iff it is non-empty, starts with an ASCII letter or `_`, and continues with letters, digits, `_` or `.`. A failure carries the rejected name. The empty name always fails. |
| Validation.PatternMatchesIffValid | query_builder_validation.go:8 | The automaton running the anchored pattern accepts exactly the names of the grammar. |
| Validation.LeadingDigitRejected | query_builder_validation.go:8 | A name starting with a digit is rejected. |
| Validation.InjectionCharacterRejected | query_builder_validation.go:8 | A space, tab, newline, quote, `;`, `-`, `/`, `*`, `=`, parenthesis or comma anywhere in a name makes it fail. |
| Validation.ExtendValidName | query_builder_validation.go:8 | Appending a letter, digit, `_` or `.` to a valid name keeps it valid. |
| Validation.AcceptedNameExamples | tests/unit/validation_test.go:51-58 | `id`, `user_name`, `users.id`, `_internal_id` and `column123` are accepted. |
| Validation.QualifiedNameAccepted | tests/unit/validation_test.go:55 | `table_name.column_name` is accepted. |
| Validation.RejectedNameExamples | tests/unit/validation_test.go:68-79 | `""`, `123column`, `column name`, `id; DROP TABLE`, `id--comment` and `id' OR '1'='1` are rejected. |
| Matchers.ByIntColumn | query_builder_matchers.go:8-25 | Fails iff the column is invalid. Exactly one value gives `col = $1` binding that int. Any other count, zero included, gives `col IN $1` binding the whole list in order. |
| Matchers.ScanCollectsStrings | query_builder_matchers.go:36-49 | The option loop keeps every string argument, in argument order, and nothing else. |
| Matchers.ScanModeIsLast | query_builder_matchers.go:40-46 | The match mode is the last match-mode argument given. |
| Matchers.ScanModeDefault | query_builder_matchers.go:37 | Without a match-mode argument the mode is `StringExact`. |
| Matchers.ScanSensitivityIsLast | query_builder_matchers.go:40-48 | The sensitivity is the last sensitivity argument given. |
| Matchers.ScanSensitivityDefault | query_builder_matchers.go:38 | Without a sensitivity argument the comparison is `Sensitive`. |
| Matchers.ByStringColumn | query_builder_matchers.go:27-103 | Fails iff the column is invalid. No string argument gives the empty condition. Two or more give `col IN $1` over the strings in order, whatever the options. Exactly one gives the condition its last mode and sensitivity select. |
| Matchers.ScanCollectsTimes | query_builder_matchers.go:114-124 | The option loop keeps every instant, in argument order. |
| Matchers.ScanRangeIsLast | query_builder_matchers.go:117-124 | The range type is the last range-type argument given. |
| Matchers.ScanRangeDefault | query_builder_matchers.go:115 | Without a range-type argument the range type is `DateExact`. |
| Matchers.ByDateColumn | query_builder_matchers.go:105-166 | Fails iff the column is invalid. No instant gives the empty condition. Between with fewer than two instants gives the empty condition. Exact-day, after and before bind the first instant's RFC 3339 text. |
| Sorting.Sort | query_builder_sort.go:3-16 | Fails iff the field is invalid and keeps the field name unchanged. The direction is the first one given, or `SortAsc` when none is. |
| Sorting.OrderByAppend | query_builder.go:64-74 | Keys added later are printed after the earlier ones, which are unchanged. Two `SortBy` calls read as one list. |
| Sorting.SortKeyRendering | query_builder.go:66-71 | A key made with no direction or with `SortAsc` prints bare. With `SortDesc` it prints with ` DESC`. |
| Numbering.NumberEachSnoc | query_builder_conditions.go:9 | Numbering one more condition keeps the parts and values of its predecessors. The new condition is numbered from the counter they left. |
| Numbering.NumberEachAppend | query_builder_conditions.go:8-129 | Numbering `a + b` from `c` is numbering `a`, then `b` from where `a` stopped. The counter never rewinds, and two successive `Where` calls read as one. |
| Numbering.NumberEachAt | query_builder_conditions.go:9 | The i-th part is the i-th condition numbered from the counter the ones before it left, so numbering follows visit order. |
| Conditions.Or | query_builder_conditions.go:131-137 | A group holding the children unchanged, joined by `OR`. |
| Conditions.And | query_builder_conditions.go:139-145 | A group holding the children unchanged, joined by `AND`. |
| Conditions.PlaceholderInjective | query_builder_conditions.go:118 | Distinct numbers give distinct `$N` placeholders. |
| Conditions.PlaceholdersDistinct | query_builder_conditions.go:73-76 | The placeholders of one `IN` list are pairwise distinct. |
| Conditions.ScalarLeafRendering | query_builder_conditions.go:117-124 | In a scalar template `p$1q` with no other `$`, the marker becomes `$c` and nothing else in the text changes. Exactly one value is bound. |
| Conditions.ExpandInAfter | query_builder_conditions.go:70-77 | In `p IN $1` the marker is found right after `p` and replaced by the parenthesised placeholder list. |
| Conditions.InListRendering | query_builder_conditions.go:70-95 | A list of n items under `IN $1` gives `IN ($c, ..., $c+n-1)` and binds the n items in order. An empty list gives `IN ()` and binds nothing. |
| Conditions.MarkerFreeLeafRendering | query_builder_conditions.go:117-124 | A template without a marker is kept as it is. It still binds its value, `Nil` included, and takes one number. |
| Conditions.EmptyGroupRendering | query_builder_conditions.go:66-68 | An empty group renders as `()` and binds nothing. |
| Conditions.NestedGroupChild | query_builder_conditions.go:11-63 | A group met as a group's child is not descended into. It yields an empty part and binds `Nil`. |
| Conditions.EmptyConditionRendering | query_builder_conditions.go:117-124 | The empty condition adds an empty text, binds `Nil` and takes one number. |
| Rendering.ColumnOperatorRendering | query_builder_conditions.go:117-124 | `col op $1` for a valid column numbers to `col op $c` and binds one value. |
| Rendering.ColumnInRendering | query_builder_conditions.go:70-95 | `col IN $1` for a valid column expands to the placeholder list and binds the list's items in order. |
| Rendering.IntMatcherRendering | query_builder_matchers.go:13-24 | Under `Where`, one int gives `col = $c`. Any other count gives `col IN ($c, ..., $c+n-1)` binding the ints in order. |
| Rendering.ExactStringRendering | query_builder_matchers.go:80-82 | Exact and sensitive: `col = $c`, binding the string. |
| Rendering.ExactInsensitiveRendering | query_builder_matchers.go:83-86 | Exact and insensitive: `LOWER(col) = LOWER($c)`, binding the string. |
| Rendering.PatternStringRendering | query_builder_matchers.go:70-95 | Pattern modes give `col LIKE $c`, or `col ILIKE $c` when insensitive. They bind `%v%`, `v%` or `%v` for contains, starts-with and ends-with. |
| Rendering.StringMatcherRendering | query_builder_matchers.go:51-61 | Under `Where`, two or more strings give an `IN` list binding them in order. One string gives its single-string condition. None gives an empty text binding `Nil`. |
| Rendering.ExactDayRendering | query_builder_matchers.go:135-140 | The exact-day template numbers `$c` inside the timestamp cast. |
| Rendering.BetweenRendering | query_builder_matchers.go:153-158 | The inlined range keeps its text, as long as neither instant's text holds `$`. It binds `Nil`. |
| Rendering.DateInstantRendering | query_builder_matchers.go:134-152 | Under `Where`, exact-day, after and before give their template with `$c`, binding the first instant's text. |
| Rendering.DateRangeRendering | query_builder_matchers.go:126-128 | Under `Where`, between with two instants keeps its literals and binds `Nil`. Fewer instants, or none, give an empty text binding `Nil`. |
| PlaceholderUse.ScalarNumbers | query_builder_conditions.go:117-119 | A scalar template `p$1q` with no other `$`, numbered from `c`, uses the number `c` and no other. |
| PlaceholderUse.ListNumbers | query_builder_conditions.go:73-77 | An expanded `IN` list of n items uses exactly the numbers `c` to `c+n-1`, in that order. |
| PlaceholderUse.GroupTextNumbers | query_builder_conditions.go:66 | The numbers a parenthesised group uses are those of its parts, in order, when the operator holds no `$`. |
| PlaceholderUse.AscendingWithinMeans | query_builder_conditions.go:8-129 | Numbers ascending within `[lo, hi)` all lie in that range and strictly increase, so none is used twice. |
| PlaceholderUse.NumberEachAscending | query_builder_conditions.go:8-129 | Conditions that each use only their own numbers, numbered one after the other from `c`, together use only `$c` to `$c+|values|-1`, in ascending order. |
| PlaceholderUse.NumberEachThenAscending | query_builder_conditions.go:8-129 | A second `Where` call, numbered from where the first stopped, continues the ascent, so no number of the first call is used again by the second. |
| PlaceholderUse.KeepersRenderOwnNumbers | query_builder_conditions.go:8-9 | Conditions that use only their own numbers from any counter do so when `Where` numbers them. |
| PlaceholderUse.ChildrenUseOwnNumbers | query_builder_conditions.go:12-64 | Read as a group's children, leaves that use only their own numbers still do, and a nested group uses none. |
| PlaceholderUse.GroupKeepsOwnNumbers | query_builder_conditions.go:10-68 | A group whose leaf children use only their own numbers uses only its own numbers, from any counter, when its operator holds no `$`. |
| PlaceholderUse.OrAndKeepOwnNumbers | query_builder_conditions.go:131-145 | `Or` and `And` of such conditions use only their own numbers. |
| PlaceholderUse.IntMatcherKeepsOwnNumbers | query_builder_matchers.go:8-25 | The condition `ByIntColumn` builds uses only its own numbers, from any counter. |
| PlaceholderUse.SingleStringKeepsOwnNumber | query_builder_matchers.go:63-100 | Each single-string condition, numbered from `c`, uses `$c` and no other. |
| PlaceholderUse.StringMatcherKeepsOwnNumbers | query_builder_matchers.go:27-103 | The condition `ByStringColumn` builds uses only its own numbers, from any counter. |
| PlaceholderUse.DateMatcherKeepsOwnNumbers | query_builder_matchers.go:105-166 | The condition `ByDateColumn` builds uses only its own numbers, from any counter. |
| PlaceholderUse.DateInstantUsesOwnNumber | query_builder_matchers.go:134-152 | Exact-day, after and before, numbered from `c`, use `$c` and no other. |
| PlaceholderUse.BetweenTextNumbers | query_builder_matchers.go:153-158 | The inlined range uses no placeholder. |
| PlaceholderUse.TwoMarkerTemplateAtTwo | query_builder_conditions.go:106-116 | From counter 2, `p$1m$2` with a `[]string` value becomes `p$3m$2`. Its numbers are `[3, 2]`, so it does not keep to its own numbers. |
| Strings.ReplaceFirstAt | query_builder_conditions.go:119 | `strings.Replace(s, old, new, 1)` rewrites exactly the first occurrence and keeps what surrounds it. |
| Strings.DecimalRoundTrip | query_builder_conditions.go:118 | The decimal rendering of `%d` is undone by parsing it back. |
| Builder.TrimSpaceShape | query_builder.go:36 | The trimmed base is a slice of the input, between runs of white space, that neither starts nor ends with white space. |
| Builder.TrimSpaceKeepsTrimmed | query_builder.go:36 | A text without white space at either end is its own trimming. |
| Builder.TrimSpaceIdempotent | query_builder.go:36 | Trimming twice is trimming once. |
| Builder.WhereClausePresent | query_builder.go:51-57 | The `WHERE` clause is present iff there are conditions, and it then opens with ` WHERE ` and the first condition. |
| Builder.WhereClauseAllAnd | query_builder.go:51-57 | With only `AND` connectives, the clause is the conditions joined by ` AND `. |
| Builder.CompileBare | query_builder.go:48-85 | A builder with nothing added compiles to its base followed by `;`. |
| Builder.OffsetWithoutLimit | tests/unit/limit_offset_test.go:20-29 | An offset alone gives ` OFFSET 20;` with no `LIMIT`. |
| Builder.LimitThenOffset | query_builder.go:76-84 | A limit and an offset appear in that order, limit first, then `;`. |
| Builder.FormatStringRoundTrip | query_builder.go:95-96 | A formatted string is the original between two single quotes. |
| Builder.FormatSingletonList | query_builder.go:97-102 | A `[]string` of one item formats as `('s')`. |
| Builder.FormatKeepsNonStrings | query_builder.go:103-104 | Ints, int lists and `Nil` are formatted as they are. |
| Builder.QueryBuilder.constructor | query_builder.go:34-46 | The base is trimmed. Numbering starts at 1, with no limit, no offset and nothing recorded. |
| Builder.QueryBuilder.Placeholders | query_builder_conditions.go:73-76 | The loop builds exactly the placeholders `$c` to `$c+n-1`. |
| Builder.QueryBuilder.BindItems | query_builder_conditions.go:80-82 | The loop appends the list's items to the bound values, in order. |
| Builder.QueryBuilder.PlaceLeaf | query_builder_conditions.go:70-124 | One leaf gives the text of its numbering from the current counter. Its values are bound, and the counter advances by their number. |
| Builder.QueryBuilder.AddCondition | query_builder_conditions.go:10-124 | One condition records its numbered text and one `AND`, binds its values, and advances the counter by their number. A group numbers its children in order. |
| Builder.QueryBuilder.Where | query_builder_conditions.go:8-129 | `Where` appends one numbered text and one `AND` per condition, in order, and binds all their values. It keeps `|values| == argCounter - 1`. Earlier texts, connectives and values are unchanged. |
| Builder.QueryBuilder.SortBy | query_builder_sort.go:18-21 | Appends the keys after the existing ones, changes nothing else, and returns the same builder. |
| Builder.QueryBuilder.Limit | query_builder_conditions.go:147-150 | Overwrites the limit, changes nothing else, and returns the same builder. |
| Builder.QueryBuilder.Offset | query_builder_conditions.go:152-155 | Overwrites the offset, changes nothing else, and returns the same builder. |
| Builder.QueryBuilder.Apply | query_builder.go:48-85 | The result is base, `WHERE`, `ORDER BY`, `LIMIT` when at least 0, and `OFFSET` when at least 0, in that order, then `;`. The builder is not changed. |
| Builder.QueryBuilder.BuildWhere | query_builder.go:51-57 | The loop builds ` WHERE c0`, then ` op_i c_i` for each later condition. |
| Builder.QueryBuilder.BuildOrderBy | query_builder.go:64-74 | The loop builds ` ORDER BY` and the keys in order, comma-separated, only `SortDesc` adding ` DESC`. Nothing is built without keys. |
| Builder.QueryBuilder.GetValues | query_builder.go:87-89 | Returns the bound values, one per placeholder number handed out. |
| Builder.QueryBuilder.GetFormattedValues | query_builder.go:91-108 | Same length as the values. Each is formatted: a string quoted, a `[]string` as a quoted, parenthesised list, anything else as it is. |

## Left out

- I/O and the integration tests: the database driver, fixture rows and row scanning are not part of the model.
- The `args` field and the loop over it in `Apply` (query_builder.go:12, 58-61): nothing ever appends to `args`, so the loop never runs. The field is omitted.
- `time.Time` and `Format(time.RFC3339)`: an instant is represented only by its RFC 3339 text, which is all the builder uses.
- Go's `regexp` engine: the anchored pattern is a three-state automaton, proved equal to the character grammar.
- `panic`: an invalid column name gives `Err(InvalidColumnName(column))` instead of unwinding.
- Enumeration values outside the declared constants (such as `SortDirection(7)`): the enumerations are closed datatypes here. A `switch` on an unknown range type, which would leave the condition empty, is not modelled.
- `StringOpts`, `Dates` and their documented priority rules (query_builder_types.go:37-55): the matchers never read them.
- The `placeholder` formatting hint of a condition is recorded but never read downstream.
- `strings.TrimSpace`: the white-space set is Go's `unicode.IsSpace` for the characters it lists. Invalid UTF-8 handling is not modelled, since strings are sequences of characters.
- Aliasing. `GetValues` returns Go's live `qb.values` slice (query_builder.go:87-89), so a caller's writes to it change the bound values. `Builder.QueryBuilder.GetValues` returns a value. `Or` and `And` keep the caller's variadic slice (query_builder_conditions.go:131-145), while a modelled group holds its own sequence.
- PlaceholderUse.DateMatcherKeepsOwnNumbers: requires that no instant's text holds `$`. Go's RFC 3339 formatting guarantees this, but here an instant is represented only by its text.
- Integer width: numbers are unbounded. A counter or limit overflowing Go's `int` is not modelled.
