/**
 * The parts of Teiid's language objects (org.teiid.language) and runtime metadata
 * (org.teiid.metadata) that the Salesforce criteria translator reads.
 */
module Language {
  import opened Wrappers

  /** The Java class a column's values have (Column.getJavaType()), as far as the translator tells them apart. */
  datatype JavaType = BooleanType | TimestampType | TimeType | DateType | OtherType(className: string)

  /**
   * A column's metadata: its name at the source, its native Salesforce type (may be null),
   * its Java type, the name at the source of the table it belongs to, and its default value (may be null).
   */
  datatype Column = Column(
    nameInSource: string,
    nativeType: Option<string>,
    javaType: JavaType,
    parentNameInSource: string,
    defaultValue: Option<string>)

  /** A table's metadata: its name at the source, its "Supports Query" property (may be null), its columns. */
  datatype Table = Table(nameInSource: string, supportsQuery: Option<string>, columns: seq<Column>)

  /**
   * The value held by a literal. `text` is the value's own toString(); the temporal variants also carry what
   * the Salesforce date-time, date and time-zone-offset formatters make of the value, which are library calls.
   */
  datatype Value =
    | BoolValue(truth: bool)
    | TimestampValue(text: string, dateTime: string, zoneOffset: string)
    | TimeValue(text: string, dateTime: string)
    | DateValue(text: string, date: string)
    | OtherValue(text: string)

  /** Operand expressions: a column reference with its metadata, a literal, or a function call. */
  datatype Expression =
    | ColumnRef(column: Column)
    | Literal(value: Value)
    | Function(name: string, params: seq<Expression>)

  datatype CompareOp = EQ | NE | LT | LE | GT | GE

  datatype LogicOp = AND | OR

  /** The predicate kinds the criteria translator handles. */
  datatype Condition =
    | Comparison(left: Expression, op: CompareOp, right: Expression)
    | Like(left: Expression, right: Expression, escape: Option<char>, negated: bool)
    | In(left: Expression, rights: seq<Expression>, negated: bool)
    | AndOr(leftCondition: Condition, logic: LogicOp, rightCondition: Condition)
    | Not(criteria: Condition)
}
