# Teiid: Salesforce criteria translation and admin authorization

This project models two pieces of the Teiid data-integration server and proves properties of them in Dafny.

**The Salesforce criteria visitor.** It walks the WHERE predicate of a query and writes it in SOQL. The
output is a list of text fragments: comparisons, LIKE, IN, the includes/excludes multi-select functions,
AND/OR and NOT. While it walks, the visitor also keeps:

- whether any criterion was seen (`hasCriteria`);
- whether the filter is a single test on the `Id` column (`onlyIdCriteria`), so that a retrieve by id can
  replace the query, and which test that is (`idInCriteria`);
- whether soft-deleted rows must be fetched (`queryAll`);
- the translation errors it collects instead of throwing (`exceptions`).

Each visit is specified by a function, `CriteriaVisitor.Translate`, from the old state to the new one. The
class `CriteriaVisitor.Visitor` holds the same state in mutable fields, as the Java class does, and each of
its methods is proved to make exactly the change its specification function describes. The lemmas in
`CriteriaProperties` then state what the flags and fragments mean for any predicate tree:

- every visit records a criterion;
- `onlyIdCriteria` holds exactly when a fresh visitor saw one Id test;
- `queryAll` is set exactly by a comparison of `IsDeleted` with true;
- errors are collected left to right;
- the fragments compose: AND/OR brackets its two sides, NOT wraps its operand;
- the WHERE clause is `WHERE ` followed by the fragments and a space.

Two behaviours of the code are modelled as written:

- A comparison whose right side is a column writes the LEFT column's name on the right (lines 308-312 read
  the left expression twice).
- `NOT (Id = v)` still counts as an Id-only filter, and its retrieve target is the un-negated test.

**The admin authorization interceptor.** It sits in front of every administrative call. It looks for a
@RolesAllowed annotation on four places in turn: the service method, the interface method, the service
class and the interface class. With no annotation, or an annotation without a value, the call fails with a
runtime error. Otherwise the interceptor scans the roles in order:

- a role equal (in any case) to the anonymous role admits the caller without a query;
- otherwise it asks the authorization service whether the caller holds the role, and stops at the first yes.

A caller that is not admitted gets an authorization error, built from the same four audit message parts,
and the service is never called. An admitted caller's call goes to the service with the same arguments,
and the service's result or exception is handed back unchanged. When audit logging is on, the request is
logged, and a grant through a role query is logged as well.

Files:

- `wrappers.dfy`: `Option`.
- `strings.dfy`: the java.lang.String operations used: equalsIgnoreCase, split(","), joining, Boolean.parseBoolean.
- `language.dfy`: the query-language objects the visitor reads: columns, tables, literal values, expressions and conditions.
- `criteria_visitor.dfy`: the visitor's specification functions and the `Visitor` class.
- `criteria_properties.dfy`: the lemmas about whole predicate trees.
- `admin_authorization.dfy`: the interceptor.

## Model

| member | source | states |
|---|---|---|
| Strings.IdSpellings | connectors/translator-salesforce/src/main/java/org/teiid/translator/salesforce/execution/visitors/CriteriaVisitor.java:402 | a name equals "id" ignoring case exactly when it is one of id, Id, iD, ID |
| Strings.EqualsIgnoreCaseIsLowerEquality | connectors/translator-salesforce/src/main/java/org/teiid/translator/salesforce/execution/visitors/CriteriaVisitor.java:402 | comparing ignoring case is the same as comparing the lower-cased texts |
| Strings.SplitOnComma | connectors/translator-salesforce/src/main/java/org/teiid/translator/salesforce/execution/visitors/CriteriaVisitor.java:261 | the pieces hold no comma and are the comma-separated fields in order; only trailing empty fields are dropped, and only when the text holds a comma (a text without one is a single piece) |
| Strings.FieldsJoin | connectors/translator-salesforce/src/main/java/org/teiid/translator/salesforce/execution/visitors/CriteriaVisitor.java:261 | joining the comma-separated fields with commas gives back the text |
| Strings.SplitOnCommaRoundTrip | connectors/translator-salesforce/src/main/java/org/teiid/translator/salesforce/execution/visitors/CriteriaVisitor.java:261 | split(",") loses only trailing commas: the text is the pieces joined by commas followed by one comma per dropped field, or only commas when no piece is left |
| CriteriaVisitor.OperatorText | connectors/translator-salesforce/src/main/java/org/teiid/translator/salesforce/execution/visitors/CriteriaVisitor.java:90-96 | each comparison operator is written as a one- or two-character symbol ending in =, < or > |
| CriteriaVisitor.OperatorTextOneToOne | connectors/translator-salesforce/src/main/java/org/teiid/translator/salesforce/execution/visitors/CriteriaVisitor.java:90-96 | no two operators share a symbol |
| Strings.ParseBoolean | connectors/translator-salesforce/src/main/java/org/teiid/translator/salesforce/execution/visitors/CriteriaVisitor.java:382-390 | Boolean.valueOf and Boolean.parseBoolean: true exactly for a non-null text whose lower-case form is "true" |
| CriteriaVisitor.IsIdColumn | connectors/translator-salesforce/src/main/java/org/teiid/translator/salesforce/execution/visitors/CriteriaVisitor.java:397-407 | true exactly for a column reference named id, Id, iD or ID at the source |
| CriteriaVisitor.IsMultiSelectColumn | connectors/translator-salesforce/src/main/java/org/teiid/translator/salesforce/execution/visitors/CriteriaVisitor.java:409-419 | true exactly for a column reference whose native type, lower-cased, is multipicklist or restrictedmultiselectpicklist; a null native type never matches |
| CriteriaVisitor.IsTimeColumn | connectors/translator-salesforce/src/main/java/org/teiid/translator/salesforce/execution/visitors/CriteriaVisitor.java:355-362 | true exactly for the Java types other than Boolean and the remaining classes, i.e. Timestamp, Time and Date |
| CriteriaVisitor.GetValue | connectors/translator-salesforce/src/main/java/org/teiid/translator/salesforce/execution/visitors/CriteriaVisitor.java:364-377 | fails exactly on a function (the source's RuntimeException); a column gives its name at the source |
| CriteriaVisitor.ValidateFunction | connectors/translator-salesforce/src/main/java/org/teiid/translator/salesforce/execution/visitors/CriteriaVisitor.java:244-254 | no error exactly for two arguments, a column then a literal; otherwise the first failed check's error (count, column, literal) |
| CriteriaVisitor.QuotedTokens | connectors/translator-salesforce/src/main/java/org/teiid/translator/salesforce/execution/visitors/CriteriaVisitor.java:262-270 | one entry per token: a space and the token in single quotes |
| CriteriaVisitor.SqlTexts | connectors/translator-salesforce/src/main/java/org/teiid/translator/salesforce/execution/visitors/CriteriaVisitor.java:230-239 | one entry per right-hand expression: its SQL text |
| CriteriaVisitor.InValues | connectors/translator-salesforce/src/main/java/org/teiid/translator/salesforce/execution/visitors/CriteriaVisitor.java:343-350 | one entry per IN value: its text, in single quotes unless the column is a time column |
| CriteriaVisitor.FlagsAfter | connectors/translator-salesforce/src/main/java/org/teiid/translator/salesforce/execution/visitors/CriteriaVisitor.java:425-437 | hasCriteria becomes the given value; onlyIdCriteria becomes true exactly for an Id criterion when none was recorded before; nothing else changes |
| CriteriaVisitor.Visitor.constructor | connectors/translator-salesforce/src/main/java/org/teiid/translator/salesforce/execution/visitors/CriteriaVisitor.java:74-97 | empty criteria list, all flags false, no Id test, no errors, no table |
| CriteriaVisitor.Visitor.Visit | connectors/translator-salesforce/src/main/java/org/teiid/translator/salesforce/execution/visitors/CriteriaVisitor.java:99-190 | the new state is Translate of the old state and the condition; the table is untouched |
| CriteriaVisitor.Visitor.VisitComparison | connectors/translator-salesforce/src/main/java/org/teiid/translator/salesforce/execution/visitors/CriteriaVisitor.java:100-112 | adds the comparison's criterion, sets the flags (an Id test only for =) and, for an Id test, stores `Id IN (v)` as the retrieve target |
| CriteriaVisitor.Visitor.VisitLike | connectors/translator-salesforce/src/main/java/org/teiid/translator/salesforce/execution/visitors/CriteriaVisitor.java:115-137 | collects the LIKE-on-Id and LIKE-on-multiselect errors, appends the un-negated LIKE text, wraps the list in NOT when negated, and never counts as an Id test |
| CriteriaVisitor.Visitor.VisitAndOr | connectors/translator-salesforce/src/main/java/org/teiid/translator/salesforce/execution/visitors/CriteriaVisitor.java:140-156 | "(", the list after the left side, ") op (", the right side's fragments on a cleared list, ")" |
| CriteriaVisitor.Visitor.VisitNot | connectors/translator-salesforce/src/main/java/org/teiid/translator/salesforce/execution/visitors/CriteriaVisitor.java:158-162 | visits the operand, then wraps the whole list in `NOT (` ... `)` |
| CriteriaVisitor.Visitor.AddNot | connectors/translator-salesforce/src/main/java/org/teiid/translator/salesforce/execution/visitors/CriteriaVisitor.java:164-169 | a non-empty list becomes `NOT (`, the list, `)`; an empty one stays empty; nothing else changes |
| CriteriaVisitor.Visitor.VisitIn | connectors/translator-salesforce/src/main/java/org/teiid/translator/salesforce/execution/visitors/CriteriaVisitor.java:172-190 | a multi-select column gives an includes/EXCLUDES criterion, any other column an IN list; the Id flags follow the left column |
| CriteriaVisitor.Visitor.ParseFunction | connectors/translator-salesforce/src/main/java/org/teiid/translator/salesforce/execution/visitors/CriteriaVisitor.java:192-203 | includes and excludes in any case generate a criterion or collect the validation error; any other function changes nothing |
| CriteriaVisitor.Visitor.GenerateMultiSelect | connectors/translator-salesforce/src/main/java/org/teiid/translator/salesforce/execution/visitors/CriteriaVisitor.java:205-215 | returns the validation error and changes nothing, or appends `name includes( 'a', 'b')` |
| CriteriaVisitor.Visitor.AddFunctionParams | connectors/translator-salesforce/src/main/java/org/teiid/translator/salesforce/execution/visitors/CriteriaVisitor.java:256-272 | appends "(", the comma-split tokens each as a space and the quoted token, joined by commas, then ")" |
| CriteriaVisitor.Visitor.AddCompareCriteria | connectors/translator-salesforce/src/main/java/org/teiid/translator/salesforce/execution/visitors/CriteriaVisitor.java:274-325 | a function on the left is parsed; otherwise appends `Parent.Column op value` with the value written by the column's Java type, and `IsDeleted` against true sets queryAll |
| CriteriaVisitor.Visitor.AppendMultiselectIn | connectors/translator-salesforce/src/main/java/org/teiid/translator/salesforce/execution/visitors/CriteriaVisitor.java:217-242 | appends `name includes (v1,v2)`, or EXCLUDES when negated, with the values' SQL text joined by commas |
| CriteriaVisitor.Visitor.AppendCriteria | connectors/translator-salesforce/src/main/java/org/teiid/translator/salesforce/execution/visitors/CriteriaVisitor.java:327-353 | stores an IN on the Id column as the retrieve target and appends its IN text; nothing else changes |
| CriteriaVisitor.Visitor.InListText | connectors/translator-salesforce/src/main/java/org/teiid/translator/salesforce/execution/visitors/CriteriaVisitor.java:328-351 | `name IN(v1,v2)` or `name NOT IN(...)`, with each value single-quoted unless the column is a time column |
| CriteriaVisitor.Visitor.SetHasCriteria | connectors/translator-salesforce/src/main/java/org/teiid/translator/salesforce/execution/visitors/CriteriaVisitor.java:425-437 | the new state is FlagsAfter of the old one |
| CriteriaVisitor.Visitor.LoadColumnMetadata | connectors/translator-salesforce/src/main/java/org/teiid/translator/salesforce/execution/visitors/CriteriaVisitor.java:379-395 | stores the table; fails with "query not supported" unless "Supports Query" parses as true; otherwise sets queryAll when an IsDeleted column's default parses as true |
| CriteriaVisitor.Visitor.AddCriteriaString | connectors/translator-salesforce/src/main/java/org/teiid/translator/salesforce/execution/visitors/CriteriaVisitor.java:447-455 | with criteria, appends `WHERE `, every fragment in order and a space; without, changes nothing |
| CriteriaProperties.FunctionParsedAppends | connectors/translator-salesforce/src/main/java/org/teiid/translator/salesforce/execution/visitors/CriteriaVisitor.java:192-215 | parsing a function only appends its criterion or its error; no flag changes |
| CriteriaProperties.AlwaysRecordsCriterion | connectors/translator-salesforce/src/main/java/org/teiid/translator/salesforce/execution/visitors/CriteriaVisitor.java:100-190 | after visiting any tree, hasCriteria is true |
| CriteriaProperties.OnlyIdExactly | connectors/translator-salesforce/src/main/java/org/teiid/translator/salesforce/execution/visitors/CriteriaVisitor.java:100-190 | onlyIdCriteria holds after a visit exactly when nothing was recorded before and the tree is one Id test, possibly under NOT |
| CriteriaProperties.RetrieveTarget | connectors/translator-salesforce/src/main/java/org/teiid/translator/salesforce/execution/visitors/CriteriaVisitor.java:100-190 | when the filter is Id-only, idInCriteria is the tree's Id test (`Id IN (v)` for `Id = v`, the IN itself for an Id IN), except that an IN on a multi-select Id column stores nothing, so idInCriteria keeps its previous value |
| CriteriaProperties.NegatedIdEqualityIsIdOnly | connectors/translator-salesforce/src/main/java/org/teiid/translator/salesforce/execution/visitors/CriteriaVisitor.java:158-162 | `NOT (Id = v)` leaves onlyIdCriteria true with `Id IN (v)` as the retrieve target |
| CriteriaProperties.QueryAllExactly | connectors/translator-salesforce/src/main/java/org/teiid/translator/salesforce/execution/visitors/CriteriaVisitor.java:317-323 | queryAll ends true exactly when it was true or the tree compares IsDeleted with true |
| CriteriaProperties.ErrorsCollected | connectors/translator-salesforce/src/main/java/org/teiid/translator/salesforce/execution/visitors/CriteriaVisitor.java:109-127 | a visit appends exactly the tree's translation errors, left to right, and throws none |
| CriteriaProperties.FragmentsFromEmpty | connectors/translator-salesforce/src/main/java/org/teiid/translator/salesforce/execution/visitors/CriteriaVisitor.java:140-169 | from an empty list, a visit leaves the tree's compositional fragments |
| CriteriaProperties.LeafAppends | connectors/translator-salesforce/src/main/java/org/teiid/translator/salesforce/execution/visitors/CriteriaVisitor.java:100-190 | a comparison, an IN and an un-negated LIKE append their fragment to what is already in the list |
| CriteriaProperties.AndOrShape | connectors/translator-salesforce/src/main/java/org/teiid/translator/salesforce/execution/visitors/CriteriaVisitor.java:140-156 | AND/OR brackets the left side's list and the right side's own fragments around the operator |
| CriteriaProperties.ColumnRightSideIgnored | connectors/translator-salesforce/src/main/java/org/teiid/translator/salesforce/execution/visitors/CriteriaVisitor.java:308-313 | a comparison with a column on the right writes the left column's name, whatever the right column is |
| CriteriaProperties.WhereClauseOfCondition | connectors/translator-salesforce/src/main/java/org/teiid/translator/salesforce/execution/visitors/CriteriaVisitor.java:447-455 | a fresh visitor that walked a tree writes `WHERE `, the tree's fragments in order, and a space |
| AdminAuthorization.FirstAnnotation | server/src/main/java/com/metamatrix/common/comm/platform/socket/server/AdminAuthorizationInterceptor.java:82-92 | the first annotation present among service method, interface method, service class, interface class; none only when all four are absent |
| AdminAuthorization.QueriedAfterMisses | server/src/main/java/com/metamatrix/common/comm/platform/socket/server/AdminAuthorizationInterceptor.java:106-120 | after roles that all failed, the queries made are those roles followed by the queries of the rest of the scan |
| AdminAuthorization.RoleScan | server/src/main/java/com/metamatrix/common/comm/platform/socket/server/AdminAuthorizationInterceptor.java:106-120 | the queried roles are a prefix of the list, include no anonymous role, and all but the last were refused; the call is authorized exactly when the scan stopped on the anonymous role or its last query succeeded |
| AdminAuthorization.Invoke | server/src/main/java/com/metamatrix/common/comm/platform/socket/server/AdminAuthorizationInterceptor.java:78-133 | a runtime error exactly when no roles are found; otherwise the roles queried are the scan's, an authorized call goes to the service once with the same arguments and returns its result or exception, an unauthorized one is rejected with the audit message and never reaches the service, and the audit trail is the request plus a grant through a role query |

## Left out

- Unchecked exceptions are not modelled. Every visit requires `Translatable`, which excludes the inputs on
  which the Java code would throw a ClassCastException, an index error, or getValue's RuntimeException (CriteriaVisitor.java:374). These are:
  - a literal that cannot be cast to its column's Java type;
  - a zone offset shorter than five characters;
  - `IsDeleted` compared with anything but a Boolean literal;
  - a comparison whose left side is a literal (the code casts any left side that is not a function to a column);
  - an IN whose left side is not a column, or whose values include a function, on a column that is not a multi-select picklist.
- Column metadata, native types and literal values are never null, except where the model says so: a native type or default value is an `Option`.
- Case-insensitive comparison folds ASCII letters only.
- The predicate kinds this visitor does not override (EXISTS, IS NULL, subqueries, and others) are not part of this model.
- Expression.toString, Like.toString, Util.addSingleQuotes and the Salesforce date, time and zone formatters are given functions or given data; their own text is not modelled.
- AddCompareCriteria: the Java method appends a column comparison to a list it is given, but a function on the left to the visitor's own list; the only caller passes the visitor's own list, so the model has no list parameter and appends to the field in both cases.
- The getters hasCriteria, hasOnlyIDCriteria and getTableName only read a field and are not modelled separately.
- The TranslatorException messages are identified by their message key; message lookup is not modelled.
- AdminRoles.RoleName.ANONYMOUS is not part of this model; the anonymous role's name is a parameter of Invoke.
- Reflection (the method lookup, Method.invoke), the session context and LogManager are not modelled. The service is a given function, the role query a given predicate, the audit switch a flag, and the audit log a returned trace.
- ExceptionUtil.convertException is not modelled; the rejection carries only the message parts.
- The authorization service's own exceptions are not modelled: a role query always answers.
- Concurrency is not modelled.
