/**
 * The Salesforce criteria translator: walks a predicate tree and builds the WHERE clause of a
 * SOQL query as a list of text fragments, while tracking whether any criterion was seen, whether the
 * filter is a single test on the Id column (so a retrieve can replace the query), whether soft-deleted
 * rows must be fetched, and the translation errors it collects instead of throwing.
 *
 * The functions below specify each visit as a change of a `VisitorState`; the class `Visitor` holds
 * that state in mutable fields, as the source does, and each of its methods is proved to perform
 * exactly the change its specification function describes.
 */
module CriteriaVisitor {
  import opened Wrappers
  import opened Strings
  import opened Language

  const MultiPickList := "multipicklist"
  const RestrictedMultiSelectPickList := "restrictedmultiselectpicklist"
  const Includes := "includes"
  const Excludes := "EXCLUDES"
  const IsDeletedColumn := "IsDeleted"

  /** The translation errors the visitor collects; each names the message key it is reported under. */
  datatype TranslatorError =
    | LikeNotSupportedOnId
    | LikeNotSupportedOnMultiselect
    | InvalidArgCount
    | FunctionNotColumnArg
    | FunctionNotLiteralArg
    | QueryNotSupported(tableName: string)

  /**
   * Text producers the translator calls but that are defined elsewhere: Expression.toString(),
   * Like.toString() (the SQL text of a LIKE predicate) and Util.addSingleQuotes.
   */
  datatype Renderer = Renderer(
    sqlOf: Expression -> string,
    likeSqlOf: Condition -> string,
    addSingleQuotes: string -> string)

  /** The visitor's mutable fields, as one value. */
  datatype VisitorState = VisitorState(
    criteriaList: seq<string>,
    hasCriteria: bool,
    onlyIdCriteria: bool,
    queryAll: bool,
    idInCriteria: Option<Condition>,
    exceptions: seq<TranslatorError>)

  /** A freshly constructed visitor. */
  const Initial := VisitorState([], false, false, false, None, [])

  /** The comparison operator table filled in by the constructor. */
  function OperatorText(op: CompareOp): (symbol: string)
    ensures 1 <= |symbol| <= 2
    ensures symbol[|symbol| - 1] in {'=', '<', '>'}
  {
    match op
    case EQ => "="
    case GE => ">="
    case GT => ">"
    case LE => "<="
    case LT => "<"
    case NE => "!="
  }

  /** The operator table is one-to-one: each operator has its own symbol. */
  lemma OperatorTextOneToOne(a: CompareOp, b: CompareOp)
    ensures OperatorText(a) == OperatorText(b) ==> a == b
  {
  }

  /** AndOr.Operator's enum name. */
  function LogicText(op: LogicOp): string
  {
    match op
    case AND => "AND"
    case OR => "OR"
  }

  // ---------------------------------------------------------------------------------------------
  // Tests on a single expression or column

  /** isIdColumn: a column reference whose name at the source is "id" in any case. */
  predicate IsIdColumn(e: Expression)
    ensures IsIdColumn(e) <==> e.ColumnRef? && e.column.nameInSource in {"id", "Id", "iD", "ID"}
  {
    e.ColumnRef? && (IdSpellings(e.column.nameInSource); EqualsIgnoreCase(e.column.nameInSource, "id"))
  }

  /** The picklist type names are lower-case, so matching them in any case is matching the lower-cased type. */
  lemma PicklistTypeMatch(t: string)
    ensures EqualsIgnoreCase(MultiPickList, t) <==> Lower(t) == MultiPickList
    ensures EqualsIgnoreCase(RestrictedMultiSelectPickList, t) <==> Lower(t) == RestrictedMultiSelectPickList
  {
    EqualsIgnoreCaseIsLowerEquality(MultiPickList, t);
    EqualsIgnoreCaseIsLowerEquality(RestrictedMultiSelectPickList, t);
    PicklistNamesLowercase();
  }

  lemma PicklistNamesLowercase()
    ensures Lower(MultiPickList) == MultiPickList
    ensures Lower(RestrictedMultiSelectPickList) == RestrictedMultiSelectPickList
  {
    PicklistNamesHaveNoCapitals();
    LowerOfLowercase(MultiPickList);
    LowerOfLowercase(RestrictedMultiSelectPickList);
  }

  lemma PicklistNamesHaveNoCapitals()
    ensures NoCapitals(MultiPickList) && NoCapitals(RestrictedMultiSelectPickList)
  {
  }

  /** A native type naming one of Salesforce's two multi-select picklist kinds, in any case (null matches neither). */
  predicate IsMultiSelectType(nativeType: Option<string>)
    ensures IsMultiSelectType(nativeType) <==>
      nativeType.Some? && Lower(nativeType.value) in {MultiPickList, RestrictedMultiSelectPickList}
  {
    PicklistTypeMatch(if nativeType.Some? then nativeType.value else "");
    nativeType.Some? &&
    (EqualsIgnoreCase(MultiPickList, nativeType.value) || EqualsIgnoreCase(RestrictedMultiSelectPickList, nativeType.value))
  }

  /** isMultiSelectColumn: a column reference whose native type is a multi-select picklist, in any case. */
  predicate IsMultiSelectColumn(e: Expression)
    ensures IsMultiSelectColumn(e) <==>
      e.ColumnRef? && e.column.nativeType.Some? && Lower(e.column.nativeType.value) in {MultiPickList, RestrictedMultiSelectPickList}
  {
    e.ColumnRef? && IsMultiSelectType(e.column.nativeType)
  }

  /** isTimeColumn: values of Timestamp, Time and Date columns are written without quotes. */
  predicate IsTimeColumn(column: Column)
    ensures IsTimeColumn(column) <==> !column.javaType.BooleanType? && !column.javaType.OtherType?
  {
    column.javaType.TimestampType? || column.javaType.TimeType? || column.javaType.DateType?
  }

  /** Object.toString() of a literal's value. */
  function ValueText(v: Value): string
  {
    match v
    case BoolValue(b) => if b then "true" else "false"
    case TimestampValue(text, _, _) => text
    case TimeValue(text, _) => text
    case DateValue(text, _) => text
    case OtherValue(text) => text
  }

  /**
   * getValue: a column's name at the source or a literal value's text; for any other expression the
   * source throws a RuntimeException, here None.
   */
  function GetValue(e: Expression): (r: Option<string>)
    ensures r.None? <==> e.Function?
    ensures e.ColumnRef? ==> r == Some(e.column.nameInSource)
  {
    match e
    case ColumnRef(column) => Some(column.nameInSource)
    case Literal(v) => Some(ValueText(v))
    case Function(_, _) => None
  }

  /**
   * validateFunction for includes/excludes: exactly two arguments, a column reference first and a
   * literal second; the first check that fails is the error reported.
   */
  function ValidateFunction(params: seq<Expression>): (r: Option<TranslatorError>)
    ensures r.None? <==> |params| == 2 && params[0].ColumnRef? && params[1].Literal?
    ensures |params| != 2 ==> r == Some(InvalidArgCount)
    ensures |params| == 2 && !params[0].ColumnRef? ==> r == Some(FunctionNotColumnArg)
    ensures |params| == 2 && params[0].ColumnRef? && !params[1].Literal? ==> r == Some(FunctionNotLiteralArg)
  {
    if |params| != 2 then Some(InvalidArgCount)
    else if !params[0].ColumnRef? then Some(FunctionNotColumnArg)
    else if !params[1].Literal? then Some(FunctionNotLiteralArg)
    else None
  }

  // ---------------------------------------------------------------------------------------------
  // The text of each kind of criterion

  /** A literal of this value can be cast to the Java class the column's type calls for. */
  predicate LiteralFits(column: Column, v: Value)
  {
    match column.javaType
    case BooleanType => v.BoolValue?
    case TimestampType => v.TimestampValue? && |v.zoneOffset| >= 5
    case TimeType => v.TimeValue?
    case DateType => v.DateValue?
    case OtherType(_) => true
  }

  /**
   * How a literal on the right of a comparison is written: Booleans as true/false, Timestamps as the
   * formatted date-time followed by the zone offset with a colon after its hours, Times and Dates through
   * their formatters, anything else as the literal's SQL text.
   */
  function LiteralText(r: Renderer, column: Column, v: Value): string
    requires LiteralFits(column, v)
  {
    match column.javaType
    case BooleanType => if v.truth then "true" else "false"
    case TimestampType => v.dateTime + v.zoneOffset[0..3] + ":" + v.zoneOffset[3..5]
    case TimeType => v.dateTime
    case DateType => v.date
    case OtherType(_) => r.sqlOf(Literal(v))
  }

  /**
   * The right-hand side of a comparison on `column`. A column reference writes the name of the LEFT
   * column, as the source does; any other expression writes nothing.
   */
  function RightText(r: Renderer, column: Column, right: Expression): string
    requires right.Literal? ==> LiteralFits(column, right.value)
  {
    match right
    case Literal(v) => LiteralText(r, column, v)
    case ColumnRef(_) => column.nameInSource
    case Function(_, _) => ""
  }

  /** `Parent.Column op value`. */
  function ComparisonText(r: Renderer, column: Column, op: CompareOp, right: Expression): string
    requires right.Literal? ==> LiteralFits(column, right.value)
  {
    column.parentNameInSource + "." + column.nameInSource + " " + OperatorText(op) + " " + RightText(r, column, right)
  }

  /** Each token preceded by a space and single-quoted. */
  function QuotedTokens(r: Renderer, tokens: seq<string>): (q: seq<string>)
    ensures |q| == |tokens|
    ensures forall i :: 0 <= i < |tokens| ==> q[i] == " " + r.addSingleQuotes(tokens[i])
  {
    if tokens == [] then []
    else QuotedTokens(r, tokens[..|tokens| - 1]) + [" " + r.addSingleQuotes(tokens[|tokens| - 1])]
  }

  lemma QuotedTokensStep(r: Renderer, tokens: seq<string>, i: nat)
    requires i < |tokens|
    ensures QuotedTokens(r, tokens[..i + 1]) == QuotedTokens(r, tokens[..i]) + [" " + r.addSingleQuotes(tokens[i])]
  {
    assert tokens[..i + 1][..i] == tokens[..i];
  }

  /**
   * One pass of addFunctionParams' loop: a comma unless it is the first token, a space and the quoted
   * token extend the joined list by one entry.
   */
  lemma AppendQuotedToken(prefix: string, done: seq<string>, first: bool, quoted: string)
    requires first <==> done == []
    ensures var before := prefix + Join(done, ",");
            (if first then before + " " + quoted else before + "," + " " + quoted)
            == prefix + Join(done + [" " + quoted], ",")
  {
    JoinSnoc(done, " " + quoted, ",");
    var joined := Join(done, ",");
    if first {
      assert prefix + joined == prefix;
    } else {
      assert prefix + joined + "," + " " + quoted == prefix + (joined + "," + (" " + quoted));
    }
  }

  /** addFunctionParams: the literal's text split on commas, written `( 'a', 'b')`. */
  function FunctionParamsText(r: Renderer, param: Expression): string
  {
    "(" + Join(QuotedTokens(r, SplitOnComma(r.sqlOf(param))), ",") + ")"
  }

  /** generateMultiSelect: `name includes( 'a', 'b')` or `name EXCLUDES( 'a', 'b')`. */
  function FunctionCriterion(r: Renderer, column: Column, funcName: string, param: Expression): string
  {
    column.nameInSource + " " + funcName + FunctionParamsText(r, param)
  }

  /** The SQL text of each expression. */
  function SqlTexts(r: Renderer, es: seq<Expression>): (t: seq<string>)
    ensures |t| == |es|
    ensures forall i :: 0 <= i < |es| ==> t[i] == r.sqlOf(es[i])
  {
    if es == [] then [] else SqlTexts(r, es[..|es| - 1]) + [r.sqlOf(es[|es| - 1])]
  }

  /** appendMultiselectIn: `name includes (v1,v2)`, or `name EXCLUDES (v1,v2)` when negated. */
  function MultiselectInCriterion(r: Renderer, column: Column, rights: seq<Expression>, negated: bool): string
  {
    column.nameInSource + " " + (if negated then Excludes else Includes) + " " + "(" + Join(SqlTexts(r, rights), ",") + ")"
  }

  /** The values of an IN list, single-quoted unless the column is a time column. */
  function InValues(rights: seq<Expression>, timeColumn: bool): (t: seq<string>)
    requires forall i :: 0 <= i < |rights| ==> !rights[i].Function?
    ensures |t| == |rights|
    ensures forall i :: 0 <= i < |rights| ==>
      t[i] == if timeColumn then GetValue(rights[i]).value else "'" + GetValue(rights[i]).value + "'"
  {
    if rights == [] then []
    else
      var v := GetValue(rights[|rights| - 1]).value;
      InValues(rights[..|rights| - 1], timeColumn) + [if timeColumn then v else "'" + v + "'"]
  }

  lemma InValuesStep(rights: seq<Expression>, i: nat, timeColumn: bool)
    requires i < |rights|
    requires forall j :: 0 <= j < |rights| ==> !rights[j].Function?
    ensures var v := GetValue(rights[i]).value;
      InValues(rights[..i + 1], timeColumn) == InValues(rights[..i], timeColumn) + [if timeColumn then v else "'" + v + "'"]
  {
    assert rights[..i + 1][..i] == rights[..i];
  }

  /**
   * One pass of appendCriteria's loop: a comma unless it is the first value, then the value, in single
   * quotes unless the column is a time column, extends the joined list by one value.
   */
  lemma AppendInValue(prefix: string, done: seq<string>, first: bool, timeColumn: bool, v: string)
    requires first <==> done == []
    ensures var before := prefix + Join(done, ",");
            var s1 := if first then before else before + ",";
            var s2 := if timeColumn then s1 else s1 + "'";
            var s3 := s2 + v;
            var s4 := if timeColumn then s3 else s3 + "'";
            s4 == prefix + Join(done + [if timeColumn then v else "'" + v + "'"], ",")
  {
    var item := if timeColumn then v else "'" + v + "'";
    var joined := Join(done, ",");
    JoinSnoc(done, item, ",");
    if first {
      assert joined == "";
      assert prefix + joined == prefix;
    } else {
      assert joined + "," + item == joined + ("," + item);
    }
  }

  /** appendCriteria: `name IN('a','b')` or `name NOT IN('a','b')`. */
  function InCriterion(left: Expression, rights: seq<Expression>, negated: bool): string
    requires left.ColumnRef?
    requires forall i :: 0 <= i < |rights| ==> !rights[i].Function?
  {
    GetValue(left).value + " " + (if negated then "NOT " else "") + "IN" + "("
    + Join(InValues(rights, IsTimeColumn(left.column)), ",") + ")"
  }

  /** addNot: a non-empty list becomes `NOT (` + list + `)`; an empty one is left alone. */
  function NotWrapped(list: seq<string>): seq<string>
  {
    if list == [] then [] else ["NOT ("] + list + [")"]
  }

  /** The WHERE clause addCriteriaString writes: all fragments in order, between `WHERE ` and a space. */
  function WhereClause(list: seq<string>): string
  {
    "WHERE " + Join(list, "") + " "
  }

  // ---------------------------------------------------------------------------------------------
  // Each visit as a change of state

  /**
   * setHasCriteria: stores `has`; afterwards onlyIdCriteria holds exactly when this is an Id criterion
   * and no criterion was recorded before. Nothing else changes.
   */
  function FlagsAfter(s: VisitorState, has: bool, isIdCriteria: bool): (t: VisitorState)
    ensures t.hasCriteria == has
    ensures t.onlyIdCriteria == (isIdCriteria && !s.hasCriteria)
    ensures t.(hasCriteria := s.hasCriteria, onlyIdCriteria := s.onlyIdCriteria) == s
  {
    var only :=
      if isIdCriteria then (if s.hasCriteria then false else true)
      else if s.onlyIdCriteria then false
      else s.onlyIdCriteria;
    s.(onlyIdCriteria := only, hasCriteria := has)
  }

  /** generateMultiSelect as caught by parseFunction: a validation error is collected, otherwise the criterion is appended. */
  function MultiSelectGenerated(r: Renderer, s: VisitorState, params: seq<Expression>, funcName: string): VisitorState
  {
    match ValidateFunction(params)
    case Some(e) => s.(exceptions := s.exceptions + [e])
    case None => s.(criteriaList := s.criteriaList + [FunctionCriterion(r, params[0].column, funcName, params[1])])
  }

  /** parseFunction: includes/excludes in any case; any other function leaves the state alone. */
  function FunctionParsed(r: Renderer, s: VisitorState, f: Expression): VisitorState
    requires f.Function?
  {
    if EqualsIgnoreCase(f.name, "includes") then MultiSelectGenerated(r, s, f.params, Includes)
    else if EqualsIgnoreCase(f.name, "excludes") then MultiSelectGenerated(r, s, f.params, Excludes)
    else s
  }

  /**
   * What visiting a condition never makes the source throw an unchecked exception for: the left of a
   * comparison is a function or a column, a literal on its right can be cast to the column's Java type,
   * `IsDeleted` is compared with a Boolean literal, and an IN that is not on a multi-select column has a
   * column on its left and only columns and literals on its right.
   */
  predicate Translatable(c: Condition)
  {
    match c
    case Comparison(l, _, right) =>
      l.Function? ||
      (l.ColumnRef?
       && (right.Literal? ==> LiteralFits(l.column, right.value))
       && (l.column.nameInSource == IsDeletedColumn ==> right.Literal? && right.value.BoolValue?))
    case Like(_, _, _, _) => true
    case In(l, rights, _) =>
      IsMultiSelectColumn(l) || (l.ColumnRef? && forall i :: 0 <= i < |rights| ==> !rights[i].Function?)
    case AndOr(a, _, b) => Translatable(a) && Translatable(b)
    case Not(x) => Translatable(x)
  }

  /** addCompareCriteria: parse a function, or append `Parent.Column op value` and note `IsDeleted = true`. */
  function CompareCriteriaAdded(r: Renderer, s: VisitorState, c: Condition): VisitorState
    requires c.Comparison? && Translatable(c)
  {
    if c.left.Function? then FunctionParsed(r, s, c.left)
    else
      var column := c.left.column;
      var deleted := column.nameInSource == IsDeletedColumn && c.right.value.truth;
      s.(criteriaList := s.criteriaList + [ComparisonText(r, column, c.op, c.right)],
         queryAll := s.queryAll || deleted)
  }

  /** The state after the visitor has walked condition `c` starting from state `s`. */
  function Translate(r: Renderer, s: VisitorState, c: Condition): VisitorState
    requires Translatable(c)
    decreases c
  {
    match c
    case Comparison(l, op, right) =>
      var isId := op == EQ && IsIdColumn(l);
      var t := FlagsAfter(CompareCriteriaAdded(r, s, c), true, isId);
      if isId then t.(idInCriteria := Some(In(l, [right], false))) else t
    case Like(l, right, escape, negated) =>
      var errors :=
        (if IsIdColumn(l) then [LikeNotSupportedOnId] else [])
        + (if IsMultiSelectColumn(l) then [LikeNotSupportedOnMultiselect] else []);
      var list := s.criteriaList + [r.likeSqlOf(Like(l, right, escape, false))];
      FlagsAfter(s.(exceptions := s.exceptions + errors, criteriaList := if negated then NotWrapped(list) else list), true, false)
    case In(l, rights, negated) =>
      var t :=
        if IsMultiSelectColumn(l) then
          s.(criteriaList := s.criteriaList + [MultiselectInCriterion(r, l.column, rights, negated)])
        else
          s.(criteriaList := s.criteriaList + [InCriterion(l, rights, negated)],
             idInCriteria := if IsIdColumn(l) then Some(c) else s.idInCriteria);
      FlagsAfter(t, true, IsIdColumn(l))
    case AndOr(a, op, b) =>
      var afterLeft := Translate(r, s, a);
      var afterRight := Translate(r, afterLeft.(criteriaList := []), b);
      afterRight.(criteriaList := ["("] + afterLeft.criteriaList + [")", " ", LogicText(op), " ", "("]
                                  + afterRight.criteriaList + [")"])
    case Not(x) =>
      var t := Translate(r, s, x);
      t.(criteriaList := NotWrapped(t.criteriaList))
  }

  /** Whether soft-deleted rows are requested by a column's default value. */
  predicate DeletedByDefault(columns: seq<Column>)
  {
    exists i :: 0 <= i < |columns| && columns[i].nameInSource == IsDeletedColumn && ParseBoolean(columns[i].defaultValue)
  }

  // ---------------------------------------------------------------------------------------------
  // The visitor object

  class Visitor {
    const render: Renderer
    var criteriaList: seq<string>
    var hasCriteria: bool
    var onlyIdCriteria: bool
    var queryAll: bool
    var idInCriteria: Option<Condition>
    var exceptions: seq<TranslatorError>
    var table: Option<Table>

    constructor (render: Renderer)
      ensures this.render == render
      ensures Snapshot() == Initial && table == None
    {
      this.render := render;
      criteriaList := [];
      hasCriteria := false;
      onlyIdCriteria := false;
      queryAll := false;
      idInCriteria := None;
      exceptions := [];
      table := None;
    }

    function Snapshot(): VisitorState
      reads this
    {
      VisitorState(criteriaList, hasCriteria, onlyIdCriteria, queryAll, idInCriteria, exceptions)
    }

    /** visitNode: dispatch on the kind of condition. */
    method Visit(c: Condition)
      requires Translatable(c)
      modifies this
      ensures Snapshot() == Translate(render, old(Snapshot()), c)
      ensures table == old(table)
      decreases c, 1
    {
      match c
      case Comparison(_, _, _) => VisitComparison(c);
      case Like(_, _, _, _) => VisitLike(c);
      case In(_, _, _) => VisitIn(c);
      case AndOr(_, _, _) => VisitAndOr(c);
      case Not(_) => VisitNot(c);
    }

    method VisitComparison(c: Condition)
      requires c.Comparison? && Translatable(c)
      modifies this
      ensures Snapshot() == Translate(render, old(Snapshot()), c)
      ensures table == old(table)
      decreases c, 0
    {
      AddCompareCriteria(c);
      var isAcceptableId := c.op == EQ && IsIdColumn(c.left);
      SetHasCriteria(true, isAcceptableId);
      if isAcceptableId {
        idInCriteria := Some(In(c.left, [c.right], false));
      }
    }

    /**
     * visit(Like): the errors for an Id or multi-select column are collected, the LIKE's text with its
     * negation switched off is appended, and the whole list is wrapped in NOT when it was negated. The
     * condition itself is a value here, so "restoring its negated flag" leaves nothing to do.
     */
    method VisitLike(c: Condition)
      requires c.Like?
      modifies this
      ensures Snapshot() == Translate(render, old(Snapshot()), c)
      ensures table == old(table)
      decreases c, 0
    {
      if IsIdColumn(c.left) {
        exceptions := exceptions + [LikeNotSupportedOnId];
      }
      if IsMultiSelectColumn(c.left) {
        exceptions := exceptions + [LikeNotSupportedOnMultiselect];
      }
      var negated := c.negated;
      var plain := Like(c.left, c.right, c.escape, false);
      criteriaList := criteriaList + [render.likeSqlOf(plain)];
      if negated {
        AddNot();
      }
      SetHasCriteria(true, false);
    }

    /** visit(AndOr): the left side's list and the right side's list, each in parentheses, around the operator. */
    method VisitAndOr(c: Condition)
      requires c.AndOr? && Translatable(c)
      modifies this
      ensures Snapshot() == Translate(render, old(Snapshot()), c)
      ensures table == old(table)
      decreases c, 0
    {
      var savedCriteria := ["("];
      Visit(c.leftCondition);
      savedCriteria := savedCriteria + criteriaList;
      criteriaList := [];
      savedCriteria := savedCriteria + [")", " ", LogicText(c.logic), " ", "("];
      Visit(c.rightCondition);
      savedCriteria := savedCriteria + criteriaList;
      criteriaList := savedCriteria;
      criteriaList := criteriaList + [")"];
    }

    /** visit(Not): visit the negated condition, then wrap the whole list. */
    method VisitNot(c: Condition)
      requires c.Not? && Translatable(c)
      modifies this
      ensures Snapshot() == Translate(render, old(Snapshot()), c)
      ensures table == old(table)
      decreases c, 0
    {
      Visit(c.criteria);
      AddNot();
    }

    method AddNot()
      modifies this
      ensures criteriaList == NotWrapped(old(criteriaList))
      ensures Snapshot() == old(Snapshot()).(criteriaList := criteriaList)
      ensures table == old(table)
    {
      if criteriaList != [] {
        criteriaList := ["NOT ("] + criteriaList;
        criteriaList := criteriaList + [")"];
      }
    }

    /** visit(In): multi-select columns use includes/EXCLUDES, every other column an IN list. */
    method VisitIn(c: Condition)
      requires c.In? && Translatable(c)
      modifies this
      ensures Snapshot() == Translate(render, old(Snapshot()), c)
      ensures table == old(table)
      decreases c, 0
    {
      if IsMultiSelectColumn(c.left) {
        AppendMultiselectIn(c.left.column, c);
      } else {
        AppendCriteria(c);
      }
      SetHasCriteria(true, IsIdColumn(c.left));
    }

    /** parseFunction: a validation error of generateMultiSelect is collected rather than thrown. */
    method ParseFunction(f: Expression)
      requires f.Function?
      modifies this
      ensures Snapshot() == FunctionParsed(render, old(Snapshot()), f)
      ensures table == old(table)
    {
      var error: Option<TranslatorError> := None;
      if EqualsIgnoreCase(f.name, "includes") {
        error := GenerateMultiSelect(f, Includes);
      } else if EqualsIgnoreCase(f.name, "excludes") {
        error := GenerateMultiSelect(f, Excludes);
      }
      if error.Some? {
        exceptions := exceptions + [error.value];
      }
    }

    /** generateMultiSelect: validate the arguments, then append `name funcName( 'a', 'b')`. */
    method GenerateMultiSelect(f: Expression, funcName: string) returns (error: Option<TranslatorError>)
      requires f.Function?
      modifies this
      ensures error == ValidateFunction(f.params)
      ensures error.Some? ==> Snapshot() == old(Snapshot())
      ensures error.None? ==>
        Snapshot() == old(Snapshot()).(criteriaList := old(criteriaList) + [FunctionCriterion(render, f.params[0].column, funcName, f.params[1])])
      ensures table == old(table)
    {
      error := ValidateFunction(f.params);
      if error.Some? {
        return;
      }
      var column := f.params[0].column;
      var criterion := column.nameInSource + " " + funcName;
      criterion := AddFunctionParams(f.params[1], criterion);
      criteriaList := criteriaList + [criterion];
    }

    /** addFunctionParams: append `(`, each comma-separated token as ` 'token'` separated by `,`, and `)`. */
    method AddFunctionParams(param: Expression, criterion: string) returns (result: string)
      ensures result == criterion + FunctionParamsText(render, param)
    {
      result := criterion + "(";
      ghost var prefix := result;
      var first := true;
      var params := SplitOnComma(render.sqlOf(param));
      for i := 0 to |params|
        invariant first <==> i == 0
        invariant result == prefix + Join(QuotedTokens(render, params[..i]), ",")
      {
        var token := params[i];
        QuotedTokensStep(render, params, i);
        AppendQuotedToken(prefix, QuotedTokens(render, params[..i]), first, render.addSingleQuotes(token));
        if first {
          result := result + " " + render.addSingleQuotes(token);
          first := false;
        } else {
          result := result + "," + " " + render.addSingleQuotes(token);
        }
      }
      assert params[..|params|] == params;
      result := result + ")";
    }

    /** addCompareCriteria. */
    method AddCompareCriteria(c: Condition)
      requires c.Comparison? && Translatable(c)
      modifies this
      ensures Snapshot() == CompareCriteriaAdded(render, old(Snapshot()), c)
      ensures table == old(table)
    {
      if c.left.Function? {
        ParseFunction(c.left);
      } else {
        var column := c.left.column;
        var columnName := column.nameInSource;
        var queryString := column.parentNameInSource + "." + columnName + " " + OperatorText(c.op) + " ";
        ghost var prefix := queryString;
        match c.right {
          case Literal(v) =>
            match column.javaType {
              case BooleanType =>
                queryString := queryString + (if v.truth then "true" else "false");
              case TimestampType =>
                var value := v.dateTime;
                var zoneValue := v.zoneOffset;
                queryString := queryString + value + zoneValue[0..3] + ":" + zoneValue[3..5];
                assert queryString == prefix + (value + zoneValue[0..3] + ":" + zoneValue[3..5]);
              case TimeType =>
                queryString := queryString + v.dateTime;
              case DateType =>
                queryString := queryString + v.date;
              case OtherType(_) =>
                queryString := queryString + render.sqlOf(c.right);
            }
          case ColumnRef(_) =>
            // the right-hand column is read but the left column's name is written
            queryString := queryString + column.nameInSource;
          case Function(_, _) =>
        }
        assert queryString == prefix + RightText(render, column, c.right);
        assert queryString == ComparisonText(render, column, c.op, c.right);
        criteriaList := criteriaList + [queryString];
        if columnName == IsDeletedColumn {
          var isDeleted := c.right.value.truth;
          if isDeleted {
            queryAll := isDeleted;
          }
        }
      }
    }

    /** appendMultiselectIn. */
    method AppendMultiselectIn(column: Column, c: Condition)
      requires c.In?
      modifies this
      ensures Snapshot() == old(Snapshot()).(criteriaList := old(criteriaList) + [MultiselectInCriterion(render, column, c.rights, c.negated)])
      ensures table == old(table)
    {
      var result := column.nameInSource + " ";
      if c.negated {
        result := result + Excludes + " ";
      } else {
        result := result + Includes + " ";
      }
      result := result + "(";
      ghost var prefix := result;
      var rightExpressions := c.rights;
      var first := true;
      var i := 0;
      while i < |rightExpressions|
        invariant 0 <= i <= |rightExpressions|
        invariant first <==> i == 0
        invariant result == prefix + Join(SqlTexts(render, rightExpressions[..i]), ",")
        modifies {}
      {
        var rightExpression := rightExpressions[i];
        assert rightExpressions[..i + 1][..i] == rightExpressions[..i];
        JoinSnoc(SqlTexts(render, rightExpressions[..i]), render.sqlOf(rightExpression), ",");
        if first {
          result := result + render.sqlOf(rightExpression);
          first := false;
        } else {
          result := result + "," + render.sqlOf(rightExpression);
        }
        i := i + 1;
      }
      assert rightExpressions[..i] == rightExpressions;
      result := result + ")";
      criteriaList := criteriaList + [result];
    }

    /** appendCriteria: an IN list on an ordinary column; an IN on the Id column is kept for a retrieve. */
    method AppendCriteria(c: Condition)
      requires c.In? && c.left.ColumnRef?
      requires forall i :: 0 <= i < |c.rights| ==> !c.rights[i].Function?
      modifies this
      ensures Snapshot() == old(Snapshot()).(
        criteriaList := old(criteriaList) + [InCriterion(c.left, c.rights, c.negated)],
        idInCriteria := if IsIdColumn(c.left) then Some(c) else old(idInCriteria))
      ensures table == old(table)
    {
      if IsIdColumn(c.left) {
        idInCriteria := Some(c);
      }
      var queryString := InListText(c);
      criteriaList := criteriaList + [queryString];
    }

    /** The StringBuffer appendCriteria fills: `name [NOT ]IN(v1,v2)`, values quoted unless the column is a time column. */
    method InListText(c: Condition) returns (queryString: string)
      requires c.In? && c.left.ColumnRef?
      requires forall i :: 0 <= i < |c.rights| ==> !c.rights[i].Function?
      ensures queryString == InCriterion(c.left, c.rights, c.negated)
    {
      var leftExp := c.left;
      queryString := GetValue(leftExp).value + " ";
      if c.negated {
        queryString := queryString + "NOT ";
      }
      queryString := queryString + "IN" + "(";
      ghost var prefix := queryString;
      assert prefix == GetValue(c.left).value + " " + (if c.negated then "NOT " else "") + "IN" + "(";
      var column := leftExp.column;
      var timeColumn := IsTimeColumn(column);
      var first := true;
      var i := 0;
      while i < |c.rights|
        invariant 0 <= i <= |c.rights|
        invariant first <==> i == 0
        invariant queryString == prefix + Join(InValues(c.rights[..i], timeColumn), ",")
      {
        var v := GetValue(c.rights[i]).value;
        InValuesStep(c.rights, i, timeColumn);
        AppendInValue(prefix, InValues(c.rights[..i], timeColumn), first, timeColumn, v);
        if !first {
          queryString := queryString + ",";
        }
        if !timeColumn {
          queryString := queryString + "'";
        }
        queryString := queryString + v;
        if !timeColumn {
          queryString := queryString + "'";
        }
        first := false;
        i := i + 1;
      }
      assert c.rights[..i] == c.rights;
      queryString := queryString + ")";
    }

    /** setHasCriteria. */
    method SetHasCriteria(has: bool, isIdCriteria: bool)
      modifies this
      ensures Snapshot() == FlagsAfter(old(Snapshot()), has, isIdCriteria)
      ensures table == old(table)
    {
      if isIdCriteria {
        if hasCriteria {
          onlyIdCriteria := false;
        } else {
          onlyIdCriteria := true;
        }
      } else if onlyIdCriteria {
        onlyIdCriteria := false;
      }
      hasCriteria := has;
    }

    /**
     * loadColumnMetadata: record the table; refuse a table whose "Supports Query" property is not "true";
     * otherwise request soft-deleted rows when an `IsDeleted` column defaults to true. queryAll is only
     * ever set, never reset.
     */
    method LoadColumnMetadata(group: Table) returns (error: Option<TranslatorError>)
      modifies this
      ensures table == Some(group)
      ensures error == if ParseBoolean(group.supportsQuery) then None else Some(QueryNotSupported(group.nameInSource))
      ensures queryAll == (old(queryAll) || (error.None? && DeletedByDefault(group.columns)))
      ensures Snapshot() == old(Snapshot()).(queryAll := queryAll)
    {
      table := Some(group);
      if !ParseBoolean(group.supportsQuery) {
        return Some(QueryNotSupported(group.nameInSource));
      }
      error := None;
      var columnIds := group.columns;
      for i := 0 to |columnIds|
        invariant queryAll == (old(queryAll) || DeletedByDefault(columnIds[..i]))
        invariant Snapshot() == old(Snapshot()).(queryAll := queryAll)
        invariant table == Some(group)
      {
        var element := columnIds[i];
        if element.nameInSource == IsDeletedColumn {
          var isDeleted := element.defaultValue;
          if ParseBoolean(isDeleted) {
            queryAll := true;
          }
        }
        assert columnIds[..i + 1][..i] == columnIds[..i];
        assert columnIds[..i + 1][i] == element;
      }
      assert columnIds[..|columnIds|] == columnIds;
    }

    /** addCriteriaString: append the WHERE clause to the buffer exactly when a criterion was recorded. */
    method AddCriteriaString(buffer: string) returns (result: string)
      ensures result == if hasCriteria then buffer + WhereClause(criteriaList) else buffer
    {
      result := buffer;
      if hasCriteria {
        result := result + "WHERE" + " ";
        for i := 0 to |criteriaList|
          invariant result == buffer + "WHERE " + Join(criteriaList[..i], "")
        {
          assert criteriaList[..i + 1] == criteriaList[..i] + [criteriaList[i]];
          JoinSnoc(criteriaList[..i], criteriaList[i], "");
          result := result + criteriaList[i];
          assert result == buffer + "WHERE " + (Join(criteriaList[..i], "") + criteriaList[i]);
        }
        assert criteriaList[..|criteriaList|] == criteriaList;
        result := result + " ";
      }
    }
  }
}
