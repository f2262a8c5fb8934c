/**
 * The identifier allow-list every matcher and the sort constructor apply to
 * column names: the anchored pattern `^[a-zA-Z_][a-zA-Z0-9_.]*$`, plus an
 * explicit rejection of the empty string.
 */
module Validation {
  import opened Types
  import Strings

  predicate IsAsciiLetter(c: char)
  {
    'a' <= c <= 'z' || 'A' <= c <= 'Z'
  }

  /** The class `[a-zA-Z_]` allowed for the first character. */
  predicate IsLeadChar(c: char)
  {
    IsAsciiLetter(c) || c == '_'
  }

  /** The class `[a-zA-Z0-9_.]` allowed for every later character. */
  predicate IsTailChar(c: char)
  {
    IsAsciiLetter(c) || Strings.IsDigit(c) || c == '_' || c == '.'
  }

  /** The identifier grammar, stated character by character. */
  predicate ValidColumnName(s: string)
  {
    |s| > 0 && IsLeadChar(s[0]) && forall i :: 1 <= i < |s| ==> IsTailChar(s[i])
  }

  /** States of the automaton that runs the anchored pattern over a name. */
  datatype MatchState = AtStart | InTail | Rejected

  function Step(q: MatchState, c: char): MatchState
  {
    match q
    case AtStart => if IsLeadChar(c) then InTail else Rejected
    case InTail => if IsTailChar(c) then InTail else Rejected
    case Rejected => Rejected
  }

  function Run(q: MatchState, s: string): MatchState
    decreases |s|
  {
    if |s| == 0 then q else Run(Step(q, s[0]), s[1..])
  }

  /** `columnNameRegex.MatchString(s)`: the whole string is consumed and accepted. */
  predicate MatchesColumnPattern(s: string)
  {
    Run(AtStart, s) == InTail
  }

  lemma {:induction false} RunRejectedStays(s: string)
    ensures Run(Rejected, s) == Rejected
    decreases |s|
  {
    if |s| > 0 {
      RunRejectedStays(s[1..]);
    }
  }

  lemma {:induction false} RunInTail(s: string)
    ensures Run(InTail, s) == InTail <==> forall i :: 0 <= i < |s| ==> IsTailChar(s[i])
    decreases |s|
  {
    if |s| > 0 {
      RunInTail(s[1..]);
      if !IsTailChar(s[0]) {
        RunRejectedStays(s[1..]);
      }
      assert forall i :: 1 <= i < |s| ==> s[1..][i - 1] == s[i];
    }
  }

  /** The automaton accepts exactly the names the grammar describes. */
  lemma PatternMatchesIffValid(s: string)
    ensures MatchesColumnPattern(s) <==> ValidColumnName(s)
  {
    if |s| > 0 {
      if IsLeadChar(s[0]) {
        RunInTail(s[1..]);
        assert forall i :: 1 <= i < |s| ==> s[1..][i - 1] == s[i];
      } else {
        RunRejectedStays(s[1..]);
      }
    }
  }

  /** `validateColumnName`: passes exactly the names of the grammar; the empty name always fails. */
  function ValidateColumnName(column: string): (r: Outcome)
    ensures r.Pass? <==> ValidColumnName(column)
    ensures r.Fail? ==> r.error == InvalidColumnName(column)
    ensures column == "" ==> r.Fail?
  {
    PatternMatchesIffValid(column);
    if column == "" || !MatchesColumnPattern(column) then Fail(InvalidColumnName(column)) else Pass
  }

  /** A name whose first character is a digit is rejected. */
  lemma LeadingDigitRejected(s: string)
    requires |s| > 0 && Strings.IsDigit(s[0])
    ensures ValidateColumnName(s).Fail?
  {
  }

  /**
   * Whitespace, quotes, statement separators, comment markers and operators
   * anywhere in a name make it fail: the injection vectors the allow-list
   * exists to stop.
   */
  lemma InjectionCharacterRejected(s: string, i: int)
    requires 0 <= i < |s|
    requires s[i] in {' ', '\t', '\n', '\'', '"', ';', '-', '/', '*', '=', '(', ')', ','}
    ensures ValidateColumnName(s).Fail?
  {
    if i > 0 {
      assert !IsTailChar(s[i]);
    }
  }

  /** Extending a valid name by an allowed character keeps it valid. */
  lemma ExtendValidName(s: string, c: char)
    requires ValidColumnName(s) && IsTailChar(c)
    ensures ValidateColumnName(s + [c]).Pass?
  {
    assert forall i :: 1 <= i < |s| ==> (s + [c])[i] == s[i];
  }

  /** The names the identifier tests accept. */
  lemma AcceptedNameExamples()
    ensures ValidateColumnName("id").Pass?
    ensures ValidateColumnName("user_name").Pass?
    ensures ValidateColumnName("users.id").Pass?
    ensures ValidateColumnName("_internal_id").Pass?
    ensures ValidateColumnName("column123").Pass?
  {
    assert ValidColumnName("id");
    assert ValidColumnName("user_name");
    assert ValidColumnName("users.id");
    assert ValidColumnName("_internal_id");
    assert ValidColumnName("column123");
  }

  /** A table-qualified name is accepted: it is built up one allowed character at a time. */
  lemma QualifiedNameAccepted()
    ensures ValidateColumnName("table_name.column_name").Pass?
  {
    assert ValidColumnName("table_name.column_name");
  }

  /** Names the identifier tests reject. */
  lemma RejectedNameExamples()
    ensures ValidateColumnName("").Fail?
    ensures ValidateColumnName("123column").Fail?
    ensures ValidateColumnName("column name").Fail?
    ensures ValidateColumnName("id; DROP TABLE").Fail?
    ensures ValidateColumnName("id--comment").Fail?
    ensures ValidateColumnName("id' OR '1'='1").Fail?
  {
    assert !ValidColumnName("123column");
    assert !IsTailChar("column name"[6]);
    assert !IsTailChar("id; DROP TABLE"[2]);
    assert !IsTailChar("id--comment"[2]);
    assert !IsTailChar("id' OR '1'='1"[2]);
  }
}
