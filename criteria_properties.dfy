/**
 * What the Salesforce criteria translator guarantees about the flags and fragments it leaves behind,
 * stated over the state-change specification `Translate` that the visitor's methods are proved to follow.
 */
module CriteriaProperties {
  import opened Wrappers
  import opened Strings
  import opened Language
  import opened CriteriaVisitor

  /** A criterion that, alone, makes the filter an Id test: `Id = x`, `Id [NOT] IN (...)`, or one of those under NOT. */
  predicate IsIdCriterion(c: Condition)
  {
    match c
    case Comparison(l, op, _) => op == EQ && IsIdColumn(l)
    case Like(_, _, _, _) => false
    case In(l, _, _) => IsIdColumn(l)
    case AndOr(_, _, _) => false
    case Not(x) => IsIdCriterion(x)
  }

  /** The Id test a retrieve would use, as the visitor stores it; none for an IN on a multi-select Id column. */
  function IdLookup(c: Condition): Option<Condition>
  {
    match c
    case Comparison(l, op, right) => if op == EQ && IsIdColumn(l) then Some(In(l, [right], false)) else None
    case Like(_, _, _, _) => None
    case In(l, _, _) => if IsIdColumn(l) && !IsMultiSelectColumn(l) then Some(c) else None
    case AndOr(_, _, _) => None
    case Not(x) => IdLookup(x)
  }

  /** Some comparison in the tree compares `IsDeleted` with the literal true (with any operator). */
  predicate RequestsDeletedRows(c: Condition)
  {
    match c
    case Comparison(l, _, right) =>
      l.ColumnRef? && l.column.nameInSource == IsDeletedColumn && right == Literal(BoolValue(true))
    case Like(_, _, _, _) => false
    case In(_, _, _) => false
    case AndOr(a, _, b) => RequestsDeletedRows(a) || RequestsDeletedRows(b)
    case Not(x) => RequestsDeletedRows(x)
  }

  /** The validation error an includes/excludes call on the left of a comparison is reported with, if any. */
  function FunctionErrors(f: Expression): seq<TranslatorError>
    requires f.Function?
  {
    if (EqualsIgnoreCase(f.name, "includes") || EqualsIgnoreCase(f.name, "excludes")) && ValidateFunction(f.params).Some?
    then [ValidateFunction(f.params).value]
    else []
  }

  /** The translation errors a tree yields, left to right. */
  function CollectedErrors(c: Condition): seq<TranslatorError>
  {
    match c
    case Comparison(l, _, _) => if l.Function? then FunctionErrors(l) else []
    case Like(l, _, _, _) =>
      (if IsIdColumn(l) then [LikeNotSupportedOnId] else [])
      + (if IsMultiSelectColumn(l) then [LikeNotSupportedOnMultiselect] else [])
    case In(_, _, _) => []
    case AndOr(a, _, b) => CollectedErrors(a) + CollectedErrors(b)
    case Not(x) => CollectedErrors(x)
  }

  /**
   * The fragments of a tree, built compositionally: AND/OR puts each side in parentheses around the
   * operator, NOT wraps its operand's fragments.
   */
  function Fragments(r: Renderer, c: Condition): seq<string>
    requires Translatable(c)
  {
    match c
    case Comparison(l, op, right) =>
      if l.Function? then FunctionParsed(r, Initial, l).criteriaList else [ComparisonText(r, l.column, op, right)]
    case Like(l, right, escape, negated) =>
      var text := [r.likeSqlOf(Like(l, right, escape, false))];
      if negated then NotWrapped(text) else text
    case In(l, rights, negated) =>
      if IsMultiSelectColumn(l) then [MultiselectInCriterion(r, l.column, rights, negated)]
      else [InCriterion(l, rights, negated)]
    case AndOr(a, op, b) =>
      ["("] + Fragments(r, a) + [")", " ", LogicText(op), " ", "("] + Fragments(r, b) + [")"]
    case Not(x) => NotWrapped(Fragments(r, x))
  }

  /** parseFunction appends to whatever list it finds, and never touches the flags. */
  lemma FunctionParsedAppends(r: Renderer, s: VisitorState, f: Expression)
    requires f.Function?
    ensures FunctionParsed(r, s, f).criteriaList == s.criteriaList + FunctionParsed(r, Initial, f).criteriaList
    ensures FunctionParsed(r, s, f).exceptions == s.exceptions + FunctionErrors(f)
    ensures FunctionParsed(r, s, f).(criteriaList := s.criteriaList, exceptions := s.exceptions) == s
  {
  }

  /** Every visit records a criterion: hasCriteria is true afterwards, whatever the tree. */
  lemma {:induction false} AlwaysRecordsCriterion(r: Renderer, s: VisitorState, c: Condition)
    requires Translatable(c)
    ensures Translate(r, s, c).hasCriteria
    decreases c
  {
    match c
    case AndOr(a, _, b) =>
      AlwaysRecordsCriterion(r, Translate(r, s, a).(criteriaList := []), b);
    case Not(x) =>
      AlwaysRecordsCriterion(r, s, x);
    case _ =>
  }

  /**
   * onlyIdCriteria holds after a visit exactly when nothing was recorded before and the tree is a single
   * Id test; in particular, once a criterion has been recorded it stays false.
   */
  lemma {:induction false} OnlyIdExactly(r: Renderer, s: VisitorState, c: Condition)
    requires Translatable(c)
    ensures Translate(r, s, c).onlyIdCriteria <==> !s.hasCriteria && IsIdCriterion(c)
    ensures s.hasCriteria ==> !Translate(r, s, c).onlyIdCriteria
    decreases c
  {
    match c
    case AndOr(a, _, b) =>
      var afterLeft := Translate(r, s, a).(criteriaList := []);
      AlwaysRecordsCriterion(r, s, a);
      OnlyIdExactly(r, afterLeft, b);
    case Not(x) =>
      OnlyIdExactly(r, s, x);
    case _ =>
  }

  /** When the filter is Id-only, idInCriteria holds the Id test a retrieve would use. */
  lemma {:induction false} RetrieveTarget(r: Renderer, s: VisitorState, c: Condition)
    requires Translatable(c)
    ensures Translate(r, s, c).onlyIdCriteria ==>
      Translate(r, s, c).idInCriteria == if IdLookup(c).Some? then IdLookup(c) else s.idInCriteria
    decreases c
  {
    match c
    case AndOr(a, _, b) =>
      OnlyIdExactly(r, s, c);
    case Not(x) =>
      RetrieveTarget(r, s, x);
    case _ =>
  }

  /**
   * `NOT (Id = v)` is still reported as an Id-only filter, with the un-negated `Id IN (v)` as the test
   * a retrieve would use.
   */
  lemma NegatedIdEqualityIsIdOnly(r: Renderer, column: Column, v: Value)
    requires column.nameInSource == "Id" && LiteralFits(column, v)
    ensures Translatable(Not(Comparison(ColumnRef(column), EQ, Literal(v))))
    ensures var t := Translate(r, Initial, Not(Comparison(ColumnRef(column), EQ, Literal(v))));
      t.onlyIdCriteria && t.idInCriteria == Some(In(ColumnRef(column), [Literal(v)], false))
  {
    var c := Not(Comparison(ColumnRef(column), EQ, Literal(v)));
    OnlyIdExactly(r, Initial, c);
    RetrieveTarget(r, Initial, c);
  }

  /** queryAll is only ever set, and only by a comparison of `IsDeleted` with true. */
  lemma {:induction false} QueryAllExactly(r: Renderer, s: VisitorState, c: Condition)
    requires Translatable(c)
    ensures Translate(r, s, c).queryAll <==> s.queryAll || RequestsDeletedRows(c)
    decreases c
  {
    match c
    case Comparison(l, _, _) =>
      if l.Function? {
        FunctionParsedAppends(r, s, l);
      }
    case AndOr(a, _, b) =>
      QueryAllExactly(r, s, a);
      QueryAllExactly(r, Translate(r, s, a).(criteriaList := []), b);
    case Not(x) =>
      QueryAllExactly(r, s, x);
    case _ =>
  }

  /** Errors are collected, never thrown: the visit appends exactly the tree's errors, left to right. */
  lemma {:induction false} ErrorsCollected(r: Renderer, s: VisitorState, c: Condition)
    requires Translatable(c)
    ensures Translate(r, s, c).exceptions == s.exceptions + CollectedErrors(c)
    decreases c
  {
    match c
    case Comparison(l, _, _) =>
      if l.Function? {
        FunctionParsedAppends(r, s, l);
      }
    case AndOr(a, _, b) =>
      var afterLeft := Translate(r, s, a);
      ErrorsCollected(r, s, a);
      ErrorsCollected(r, afterLeft.(criteriaList := []), b);
      assert s.exceptions + CollectedErrors(a) + CollectedErrors(b) == s.exceptions + (CollectedErrors(a) + CollectedErrors(b));
    case Not(x) =>
      ErrorsCollected(r, s, x);
    case _ =>
  }

  /** Started with an empty list, the visitor leaves exactly the compositional fragments of the tree. */
  lemma {:induction false} FragmentsFromEmpty(r: Renderer, s: VisitorState, c: Condition)
    requires Translatable(c) && s.criteriaList == []
    ensures Translate(r, s, c).criteriaList == Fragments(r, c)
    decreases c
  {
    match c
    case Comparison(l, _, _) =>
      if l.Function? {
        FunctionParsedAppends(r, s, l);
      }
    case AndOr(a, _, b) =>
      FragmentsFromEmpty(r, s, a);
      FragmentsFromEmpty(r, Translate(r, s, a).(criteriaList := []), b);
    case Not(x) =>
      FragmentsFromEmpty(r, s, x);
    case _ =>
  }

  /**
   * A comparison, an IN and an un-negated LIKE append their fragment to whatever is in the list.
   * (A NOT, or a negated LIKE, wraps the whole list instead, earlier fragments included.)
   */
  lemma LeafAppends(r: Renderer, s: VisitorState, c: Condition)
    requires Translatable(c)
    requires c.Comparison? || c.In? || (c.Like? && !c.negated)
    ensures Translate(r, s, c).criteriaList == s.criteriaList + Fragments(r, c)
  {
    if c.Comparison? && c.left.Function? {
      FunctionParsedAppends(r, s, c.left);
    }
  }

  /**
   * AND/OR: "(", the list as it stood after the left side, ") op (", the right side's own fragments
   * (the list is cleared in between), and ")".
   */
  lemma AndOrShape(r: Renderer, s: VisitorState, a: Condition, op: LogicOp, b: Condition)
    requires Translatable(a) && Translatable(b)
    ensures Translate(r, s, AndOr(a, op, b)).criteriaList ==
      ["("] + Translate(r, s, a).criteriaList + [")", " ", LogicText(op), " ", "("] + Fragments(r, b) + [")"]
  {
    FragmentsFromEmpty(r, Translate(r, s, a).(criteriaList := []), b);
  }

  /** A comparison between two columns writes the left column's name on both sides: the right column is never read. */
  lemma ColumnRightSideIgnored(r: Renderer, s: VisitorState, left: Column, op: CompareOp, a: Column, b: Column)
    requires left.nameInSource != IsDeletedColumn
    ensures Translatable(Comparison(ColumnRef(left), op, ColumnRef(a)))
    ensures Translatable(Comparison(ColumnRef(left), op, ColumnRef(b)))
    ensures Translate(r, s, Comparison(ColumnRef(left), op, ColumnRef(a))).criteriaList
         == Translate(r, s, Comparison(ColumnRef(left), op, ColumnRef(b))).criteriaList
         == s.criteriaList + [left.parentNameInSource + "." + left.nameInSource + " " + OperatorText(op) + " " + left.nameInSource]
  {
  }

  /** The WHERE clause of a fresh visitor that walked a tree: `WHERE ` + its fragments in order + a space. */
  lemma WhereClauseOfCondition(r: Renderer, c: Condition)
    requires Translatable(c)
    ensures Translate(r, Initial, c).hasCriteria
    ensures WhereClause(Translate(r, Initial, c).criteriaList) == "WHERE " + Join(Fragments(r, c), "") + " "
  {
    AlwaysRecordsCriterion(r, Initial, c);
    FragmentsFromEmpty(r, Initial, c);
  }
}
