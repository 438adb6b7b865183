/**
 * The condition encoder of the SQL backend (src/InQuery/Helpers/MySqlHelper.php).
 * `buildWhere` turns one (table, field, value, condition) into a where-clause
 * fragment and the name of the parameter that carries the value.
 *
 * The model follows the source where its unit tests expect otherwise: the
 * source renders the operators `IN`, `NOT IN` and `IS NULL` upper-case, and it
 * always writes a `:` before the parameter name in the fragment, so an explicit
 * placeholder `:x` appears as `::x` and a hashed name is returned without a
 * colon. The tests expect lower-case operators and a colon-prefixed name.
 */
module MySqlHelper {
  import opened Php
  import Queries

  /** The value is an explicit placeholder: a string whose first character,
      trimmed, is ":". */
  predicate IsPlaceholder(value: Value)
  {
    value.Str? && Trim(Substr(value.s, 0, 1)) == ":"
  }

  /** Exactly the strings that start with ":" are placeholders; a leading
      space, the empty string and every non-string value are not. */
  lemma PlaceholderIff(value: Value)
    ensures IsPlaceholder(value) <==> value.Str? && |value.s| > 0 && value.s[0] == ':'
  {
    if value.Str? && |value.s| > 0 {
      assert Substr(value.s, 0, 1) == [value.s[0]];
      TrimSingle(value.s[0]);
    }
  }

  /** The parameter name for a condition: the placeholder itself, or the hash
      of the table name followed by the field name. */
  function ParamName(hash: string -> string, table: string, field: string, value: Value): (name: string)
    ensures value.Str? && |value.s| > 0 && value.s[0] == ':' ==> name == value.s
    ensures !(value.Str? && |value.s| > 0 && value.s[0] == ':') ==> name == hash(table + field)
  {
    PlaceholderIff(value);
    if IsPlaceholder(value) then value.s else hash(table + field)
  }

  /** `buildWhere($table, $field, $value, $condition)` with `hashString` given as
      `hash`: the pair (whereString, paramName). */
  function BuildWhere(hash: string -> string, table: string, field: string, value: Value,
                      condition: Option<string>): (r: (string, string))
    ensures r.1 == ParamName(hash, table, field, value)
    ensures var head := table + "." + field + " ";
      |head| <= |r.0| && r.0[..|head|] == head
    ensures var op := if condition.None? then Queries.EQ else condition.value;
      var column := table + "." + field;
      && (op == Queries.IN ==> r.0 == column + " IN (:" + r.1 + ")")
      && (op == Queries.NOT_IN ==> r.0 == column + " NOT IN (:" + r.1 + ")")
      && (op == Queries.IS_NULL ==> r.0 == column + " IS NULL")
      && (op != Queries.IN && op != Queries.NOT_IN && op != Queries.IS_NULL ==>
            r.0 == column + " " + op + " :" + r.1)
  {
    var paramName := ParamName(hash, table, field, value);
    var op := if condition.None? then Queries.EQ else condition.value;
    var column := table + "." + field;
    var whereString :=
      if op == Queries.IN then
        (HeadAppend3(column, " IN (:", paramName, ")");
         column + " IN (:" + paramName + ")")
      else if op == Queries.NOT_IN then
        (HeadAppend3(column, " NOT IN (:", paramName, ")");
         column + " NOT IN (:" + paramName + ")")
      else if op == Queries.IS_NULL then
        (HeadAppend3(column, " IS NULL", "", "");
         column + " IS NULL")
      else
        (HeadAppend3(column, " ", op, " :" + paramName);
         column + " " + op + " :" + paramName);
    (whereString, paramName)
  }

  /** A fragment `column + a + b + c` whose part `a` starts with a space begins
      with the column and that space, whatever follows. */
  lemma HeadAppend3(column: string, a: string, b: string, c: string)
    requires |a| > 0 && a[0] == ' '
    ensures var head := column + " "; var w := column + a + b + c;
      |head| <= |w| && w[..|head|] == head
  {
    var n := |column| + 1;
    var x := column + a;
    assert x[..n] == column + " " by {
      assert x[|column|] == ' ';
    }
    assert (x + b)[..n] == x[..n];
    assert (x + b + c)[..n] == (x + b)[..n];
  }

  /** A missing condition renders as "=". */
  lemma MissingConditionIsEq(hash: string -> string, table: string, field: string, value: Value)
    ensures BuildWhere(hash, table, field, value, None) == BuildWhere(hash, table, field, value, Some(Queries.EQ))
    ensures BuildWhere(hash, table, field, value, None).0
      == table + "." + field + " = :" + ParamName(hash, table, field, value)
  {
  }

  /** Two auto-named conditions on the same table and field get the same
      parameter name, whatever their values and operators: the names collide. */
  lemma AutoNamesCollide(hash: string -> string, table: string, field: string,
                         v1: Value, c1: Option<string>, v2: Value, c2: Option<string>)
    requires !IsPlaceholder(v1) && !IsPlaceholder(v2)
    ensures BuildWhere(hash, table, field, v1, c1).1 == BuildWhere(hash, table, field, v2, c2).1
    ensures BuildWhere(hash, table, field, v1, c1).1 == hash(table + field)
  {
  }

  /** "is null" renders the same text for every value; the parameter name is
      still returned. */
  lemma IsNullIgnoresValue(hash: string -> string, table: string, field: string, v1: Value, v2: Value)
    ensures BuildWhere(hash, table, field, v1, Some(Queries.IS_NULL)).0
      == BuildWhere(hash, table, field, v2, Some(Queries.IS_NULL)).0
      == table + "." + field + " IS NULL"
    ensures BuildWhere(hash, table, field, v1, Some(Queries.IS_NULL)).1 == ParamName(hash, table, field, v1)
  {
  }

  /** An explicit placeholder comes back as the name verbatim, and the fragment
      shows it after a second colon. */
  lemma PlaceholderDoubleColon(hash: string -> string)
    ensures BuildWhere(hash, "test", "column1", Str(":column1"), None)
      == ("test.column1 = ::column1", ":column1")
  {
    PlaceholderIff(Str(":column1"));
    assert ParamName(hash, "test", "column1", Str(":column1")) == ":column1";
    assert "test" + "." + "column1" + " " + "=" + " :" + ":column1" == "test.column1 = ::column1";
  }

  /** Operators match case-sensitively: an upper-case "IN", which `where`
      accepts and stores as given, takes the generic branch. */
  lemma UpperCaseInIsGeneric(hash: string -> string, table: string, field: string, value: Value)
    ensures BuildWhere(hash, table, field, value, Some("IN")).0
      == table + "." + field + " IN :" + ParamName(hash, table, field, value)
  {
  }
}
