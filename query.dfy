/**
 * The query accumulator (src/InQuery/Query.php). A `Query` collects one
 * segment per table: the table name, the selected fields, the where
 * conditions, an optional join descriptor and the sort order. A cursor,
 * `querySet`, names the segment that `table`, `select`, `where` and `order`
 * write; `join` attaches a join to that segment and moves the cursor on to
 * a new segment for the joined table.
 *
 * PHP creates an array slot the first time it is written. So `where`,
 * `order`, a non-empty `select` or `join` issued while the slot under the
 * cursor does not exist yet create it; the model reads a missing slot as
 * EMPTY_SEGMENT, whose table is None. Calls to PHP builtins with the wrong
 * arguments follow PHP 7: a warning, and the builtin returns NULL.
 */
module Queries {
  import opened Php

  /* Join types (Query.php:21-24). */
  const JOIN_INNER: string := "inner"
  const JOIN_LEFT: string := "left"
  const JOIN_RIGHT: string := "right"
  const JOIN_OUTER: string := "outer"

  /* Order directions (Query.php:29-30). */
  const ORDER_ASC: string := "asc"
  const ORDER_DESC: string := "desc"

  /* Conditional operators (Query.php:44-52). */
  const EQ: string := "="
  const NOT_EQ: string := "!="
  const IN: string := "in"
  const NOT_IN: string := "not in"
  const GT: string := ">"
  const GT_EQ: string := ">="
  const LT: string := "<"
  const LT_EQ: string := "<="
  const IS_NULL: string := "is null"

  /** The valid conditionals: the nine operators the class defines. */
  const CONDITIONALS: seq<string> := [EQ, NOT_EQ, IN, NOT_IN, GT, GT_EQ, LT, LT_EQ, IS_NULL]

  /** The valid join types. */
  const JOINS: seq<string> := [JOIN_INNER, JOIN_LEFT, JOIN_RIGHT, JOIN_OUTER]

  /** The exceptions a chained call raises, with their messages. */
  datatype QueryError =
    | InvalidConditional(message: string)
    | InvalidOrder(message: string)
    | InvalidJoin(message: string)

  /** A where entry `[field, value, condition]`; a missing condition stays None. */
  datatype Condition = Condition(field: string, value: Value, condition: Option<string>)

  /** An order entry `[field, direction]`, direction already lower-cased. */
  datatype OrderBy = OrderBy(field: string, direction: string)

  /** A join entry `[table, on, type]`, type in the caller's casing. */
  datatype JoinSpec = JoinSpec(table: string, on: PhpArray, joinType: string)

  /** One per-table slot of the query data. */
  datatype Segment = Segment(
    table: Option<string>,
    fields: seq<string>,
    where: seq<Condition>,
    join: Option<JoinSpec>,
    order: seq<OrderBy>)

  /** What a slot that PHP has not created yet reads as. */
  const EMPTY_SEGMENT: Segment := Segment(None, [], [], None, [])

  /** The slot `table($t)` writes: table set, everything else empty. */
  function NewSegment(table: string): (s: Segment)
  {
    Segment(Some(table), [], [], None, [])
  }

  // ---------------------------------------------------------------------
  // Validation

  /** `validConditional`: the lower-cased conditional is one of the nine operators. */
  predicate ValidConditional(conditional: string)
  {
    ToLower(conditional) in CONDITIONALS
  }

  /** `validJoin` as evidently intended: the lower-cased type is a join type. */
  predicate ValidJoin(joinType: string)
  {
    ToLower(joinType) in JOINS
  }

  /** Validation of a conditional ignores case. */
  lemma ValidConditionalIgnoresCase(conditional: string)
    ensures ValidConditional(conditional) <==> ValidConditional(ToLower(conditional))
  {
    ToLowerIdempotent(conditional);
  }

  /** Validation of a join type ignores case. */
  lemma ValidJoinIgnoresCase(joinType: string)
    ensures ValidJoin(joinType) <==> ValidJoin(ToLower(joinType))
  {
    ToLowerIdempotent(joinType);
  }

  /** Each of the nine operators is accepted as declared, "=" included. */
  lemma ValidConditionalOperators()
    ensures forall op :: op in CONDITIONALS ==> ValidConditional(op)
    ensures ValidConditional(EQ)
  {
    forall op | op in CONDITIONALS
      ensures ValidConditional(op)
    {
      ToLowerNoUpper(op);
    }
  }

  /** Upper-case spellings are accepted; other operators are not. */
  lemma ValidConditionalExamples()
    ensures ValidConditional("IN") && ValidConditional("NOT IN") && ValidConditional("IS NULL")
    ensures !ValidConditional("==") && !ValidConditional("like")
  {
    assert ToLower("IN") == IN;
    assert ToLower("NOT IN") == NOT_IN;
    assert ToLower("IS NULL") == IS_NULL;
    ToLowerNoUpper("==");
    ToLowerNoUpper("like");
  }

  /** The four declared join types are accepted, as are two other casings of
      them; other types are not. Every casing is covered by ValidJoinIgnoresCase. */
  lemma ValidJoinExamples()
    ensures forall t :: t in JOINS ==> ValidJoin(t)
    ensures ValidJoin("INNER") && ValidJoin("Left")
    ensures !ValidJoin("cross") && !ValidJoin("")
  {
    forall t | t in JOINS
      ensures ValidJoin(t)
    {
      ToLowerNoUpper(t);
    }
    assert ToLower("INNER") == JOIN_INNER;
    assert ToLower("Left") == JOIN_LEFT;
    ToLowerNoUpper("cross");
  }

  // ---------------------------------------------------------------------
  // The source as written, for the two defects in Query.php

  /** The class constants Query.php declares, by name. */
  function ClassConstant(name: string): Option<string>
  {
    match name
    case "JOIN_INNER" => Some(JOIN_INNER)
    case "JOIN_LEFT" => Some(JOIN_LEFT)
    case "JOIN_RIGHT" => Some(JOIN_RIGHT)
    case "JOIN_OUTER" => Some(JOIN_OUTER)
    case "ORDER_ASC" => Some(ORDER_ASC)
    case "ORDER_DESC" => Some(ORDER_DESC)
    case "QUERY_SET_TABLE" => Some("table")
    case "QUERY_SET_FIELDS" => Some("fields")
    case "QUERY_SET_WHERE" => Some("where")
    case "QUERY_SET_JOIN" => Some("join")
    case "QUERY_SET_ORDER" => Some("order")
    case "EQ" => Some(EQ)
    case "NOT_EQ" => Some(NOT_EQ)
    case "IN" => Some(IN)
    case "NOT_IN" => Some(NOT_IN)
    case "GT" => Some(GT)
    case "GT_EQ" => Some(GT_EQ)
    case "LT" => Some(LT)
    case "LT_EQ" => Some(LT_EQ)
    case "IS_NULL" => Some(IS_NULL)
    case _ => None
  }

  /** Resolves a list of `self::NAME` references; None when one is undefined,
      which in PHP is an Error raised when the property default is evaluated. */
  function ResolveConstants(names: seq<string>): (r: Option<seq<string>>)
    ensures r.Some? ==> |r.value| == |names|
    ensures r.Some? ==> forall i :: 0 <= i < |names| ==> ClassConstant(names[i]) == Some(r.value[i])
    ensures r.Some? <==> forall i :: 0 <= i < |names| ==> ClassConstant(names[i]).Some?
    decreases |names|
  {
    if names == [] then Some([])
    else match (ClassConstant(names[0]), ResolveConstants(names[1..]))
      case (Some(v), Some(vs)) => Some([v] + vs)
      case _ => None
  }

  /** The names the `$conditionals` property lists as written; the first is `EQUAL`. */
  const CONDITIONAL_NAMES_AS_WRITTEN: seq<string> :=
    ["EQUAL", "NOT_EQ", "IN", "NOT_IN", "GT", "GT_EQ", "LT", "LT_EQ", "IS_NULL"]

  /** The names it evidently means: `EQ` is the constant declared for "=". */
  const CONDITIONAL_NAMES: seq<string> :=
    ["EQ", "NOT_EQ", "IN", "NOT_IN", "GT", "GT_EQ", "LT", "LT_EQ", "IS_NULL"]

  /** As written, `$conditionals` cannot be evaluated, so no Query can be built. */
  lemma ConditionalsAsWrittenUndefined()
    ensures ResolveConstants(CONDITIONAL_NAMES_AS_WRITTEN).None?
  {
    assert ClassConstant(CONDITIONAL_NAMES_AS_WRITTEN[0]).None?;
  }

  /** `strtolower` called with an argument list, for the two calls the core
      makes: with a wrong argument count PHP 7 warns and yields NULL, and one
      string argument is lower-cased. A single argument of another type is
      outside the model (PHP 7 would convert a scalar to a string). */
  function StrToLowerCall(args: seq<Value>): (r: Value)
    ensures |args| != 1 ==> r == Null
    ensures |args| == 1 && args[0].Str? ==> r == Str(ToLower(args[0].s))
  {
    if |args| == 1 && args[0].Str? then Str(ToLower(args[0].s)) else Null
  }

  /** `in_array` called with an argument list, for the call the core makes:
      with fewer than two arguments PHP 7 warns and yields NULL. With a needle
      and an array the model answers a boolean by strict comparison; PHP's
      loose comparison is not modelled. */
  function InArrayCall(args: seq<Value>): (r: Value)
    ensures |args| < 2 ==> r == Null
    ensures |args| >= 2 && args[1].Array? ==> r.Bool?
  {
    if |args| < 2 || !args[1].Array? then Null
    else Bool(exists k :: 0 <= k < |args[1].entries| && args[1].entries[k].1 == args[0])
  }

  /** PHP truthiness of the values `in_array` returns. */
  predicate Truthy(v: Value)
  {
    match v
    case Null => false
    case Bool(b) => b
    case Int(i) => i != 0
    case Float(f) => f != 0.0
    case Str(s) => s != "" && s != "0"
    case Array(e) => e != []
  }

  /** The `$joins` property as a PHP list. */
  function JoinsArray(): Value
  {
    Array([(IntKey(0), Str(JOIN_INNER)), (IntKey(1), Str(JOIN_LEFT)),
           (IntKey(2), Str(JOIN_RIGHT)), (IntKey(3), Str(JOIN_OUTER))])
  }

  /** `validJoin` as written: `in_array(strtolower($type, $this->joins))`. */
  predicate ValidJoinAsWritten(joinType: string)
  {
    Truthy(InArrayCall([StrToLowerCall([Str(joinType), JoinsArray()])]))
  }

  /** As written, every join type is rejected, the default "inner" included. */
  lemma ValidJoinAsWrittenRejectsAll(joinType: string)
    ensures !ValidJoinAsWritten(joinType)
    ensures ValidJoin(JOIN_INNER) && !ValidJoinAsWritten(JOIN_INNER)
  {
    assert ToLower(JOIN_INNER) == JOIN_INNER;
  }

  // ---------------------------------------------------------------------
  // Field sets

  predicate NoDuplicates(s: seq<string>)
  {
    forall i, j :: 0 <= i < j < |s| ==> s[i] != s[j]
  }

  /** The fields after `select(...$fields)`: each field of `added` not already
      present is appended, in argument order. */
  function AddFields(fields: seq<string>, added: seq<string>): (r: seq<string>)
    decreases |added|
  {
    if added == [] then fields
    else AddFields(if added[0] in fields then fields else fields + [added[0]], added[1..])
  }

  /** The first position of `x` in `s`. */
  function IndexOf(s: seq<string>, x: string): (k: nat)
    requires x in s
    ensures k < |s| && s[k] == x
    ensures forall j :: 0 <= j < k ==> s[j] != x
  {
    if s[0] == x then 0 else 1 + IndexOf(s[1..], x)
  }

  /** The fields already there stay in front, unchanged. */
  lemma {:induction false} AddFieldsKeepsPrefix(fields: seq<string>, added: seq<string>)
    ensures |fields| <= |AddFields(fields, added)|
    ensures AddFields(fields, added)[..|fields|] == fields
    decreases |added|
  {
    if added != [] {
      var next := if added[0] in fields then fields else fields + [added[0]];
      AddFieldsKeepsPrefix(next, added[1..]);
      assert next[..|fields|] == fields;
    }
  }

  /** A field is present afterwards exactly when it was present or was selected. */
  lemma {:induction false} AddFieldsContents(fields: seq<string>, added: seq<string>, x: string)
    ensures x in AddFields(fields, added) <==> x in fields || x in added
    decreases |added|
  {
    if added != [] {
      var next := if added[0] in fields then fields else fields + [added[0]];
      AddFieldsContents(next, added[1..], x);
      assert x in added <==> x == added[0] || x in added[1..];
    }
  }

  /** Selecting never introduces a duplicate. */
  lemma {:induction false} AddFieldsNoDuplicates(fields: seq<string>, added: seq<string>)
    requires NoDuplicates(fields)
    ensures NoDuplicates(AddFields(fields, added))
    decreases |added|
  {
    if added != [] {
      var next := if added[0] in fields then fields else fields + [added[0]];
      AddFieldsNoDuplicates(next, added[1..]);
    }
  }

  /** Selecting fields that are all present already changes nothing. */
  lemma {:induction false} AddFieldsPresent(fields: seq<string>, added: seq<string>)
    requires forall i :: 0 <= i < |added| ==> added[i] in fields
    ensures AddFields(fields, added) == fields
    decreases |added|
  {
    if added != [] {
      AddFieldsPresent(fields, added[1..]);
    }
  }

  /** Repeating a `select` is a no-op. */
  lemma AddFieldsIdempotent(fields: seq<string>, added: seq<string>)
    ensures AddFields(AddFields(fields, added), added) == AddFields(fields, added)
  {
    var once := AddFields(fields, added);
    forall i | 0 <= i < |added|
      ensures added[i] in once
    {
      AddFieldsContents(fields, added, added[i]);
    }
    AddFieldsPresent(once, added);
  }

  /** The appended fields are new, and appear in the order of their first
      occurrence among the selected ones. */
  lemma {:induction false} AddFieldsFirstSeenOrder(fields: seq<string>, added: seq<string>)
    ensures var r := AddFields(fields, added);
      && |fields| <= |r|
      && (forall i :: |fields| <= i < |r| ==> r[i] !in fields && r[i] in added)
      && (forall i, j :: |fields| <= i < j < |r| ==> IndexOf(added, r[i]) < IndexOf(added, r[j]))
    decreases |added|
  {
    AddFieldsKeepsPrefix(fields, added);
    if added != [] {
      var r := AddFields(fields, added);
      var x, rest := added[0], added[1..];
      var next := if x in fields then fields else fields + [x];
      AddFieldsFirstSeenOrder(next, rest);
      AddFieldsKeepsPrefix(next, rest);
      assert r == AddFields(next, rest);
      forall i | |next| <= i < |r|
        ensures r[i] != x && IndexOf(added, r[i]) == 1 + IndexOf(rest, r[i])
      {
        assert x in next;
      }
      if x !in fields {
        assert r[|fields|] == x;
      }
    }
  }

  // ---------------------------------------------------------------------
  // Slots of the query data

  /** The slot at index i, or EMPTY_SEGMENT when PHP has not created it. */
  function At(segments: seq<Segment>, i: nat): (s: Segment)
  {
    if i < |segments| then segments[i] else EMPTY_SEGMENT
  }

  /** Writes slot i, creating it when i is one past the end. */
  function Put(segments: seq<Segment>, i: nat, s: Segment): (r: seq<Segment>)
    requires i <= |segments|
    ensures |r| == if i < |segments| then |segments| else i + 1
    ensures r[i] == s
    ensures forall j :: 0 <= j < |segments| && j != i ==> r[j] == segments[j]
  {
    if i < |segments| then segments[i := s] else segments + [s]
  }

  /** The query accumulator. */
  class Query {
    /** One slot per table, in the order the tables were opened. */
    var queryData: seq<Segment>
    /** The index of the slot the chained calls write. */
    var querySet: nat

    /** The cursor names an existing slot or the one just past the end, and
        no slot selects a field twice. */
    ghost predicate Valid()
      reads this
    {
      && querySet <= |queryData| <= querySet + 1
      && forall k :: 0 <= k < |queryData| ==> NoDuplicates(queryData[k].fields)
    }

    /** The slot under the cursor exists: true after `table` and after every `join`. */
    ghost predicate Opened()
      reads this
    {
      |queryData| == querySet + 1
    }

    /** The slot under the cursor. */
    function Current(): (s: Segment)
      reads this
    {
      At(queryData, querySet)
    }

    /** A new query: no slots, cursor 0. Driver and builder are not modelled. */
    constructor ()
      ensures Valid()
      ensures queryData == [] && querySet == 0
    {
      queryData := [];
      querySet := 0;
    }

    /** `table($table)`: resets the slot under the cursor to a new segment. */
    method Table(table: string)
      requires Valid()
      modifies this
      ensures Valid() && Opened()
      ensures querySet == old(querySet)
      ensures queryData == Put(old(queryData), querySet, NewSegment(table))
      ensures queryData[..querySet] == old(queryData)[..querySet]
    {
      queryData := Put(queryData, querySet, NewSegment(table));
    }

    /** `select(...$fields)`: appends each field not yet selected on the current
        slot. An empty call writes nothing, so it creates no slot. */
    method Select(fields: seq<string>)
      requires Valid()
      modifies this
      ensures Valid()
      ensures querySet == old(querySet)
      ensures queryData == if fields == [] then old(queryData)
        else Put(old(queryData), querySet, old(Current()).(fields := AddFields(old(Current()).fields, fields)))
      ensures queryData[..querySet] == old(queryData)[..querySet]
    {
      var segment := Current();
      var selected := segment.fields;
      var i := 0;
      while i < |fields|
        invariant 0 <= i <= |fields|
        invariant AddFields(selected, fields[i..]) == AddFields(segment.fields, fields)
      {
        assert fields[i..][1..] == fields[i + 1..];
        if fields[i] !in selected {
          selected := selected + [fields[i]];
        }
        i := i + 1;
      }
      assert fields[i..] == [];
      if |fields| > 0 {
        AddFieldsNoDuplicates(segment.fields, fields);
        queryData := Put(queryData, querySet, segment.(fields := selected));
      }
    }

    /** `where($field, $value, $condition)`: appends the condition as given, or
        raises InvalidConditional and changes nothing. */
    method Where(field: string, value: Value, condition: Option<string>) returns (err: Option<QueryError>)
      requires Valid()
      modifies this
      ensures Valid()
      ensures querySet == old(querySet)
      ensures err == if condition.Some? && !ValidConditional(condition.value)
        then Some(InvalidConditional(condition.value + " is not a valid conditional."))
        else None
      ensures err.Some? ==> queryData == old(queryData)
      ensures err.None? ==> queryData == Put(old(queryData), querySet,
        old(Current()).(where := old(Current()).where + [Condition(field, value, condition)]))
      ensures queryData[..querySet] == old(queryData)[..querySet]
    {
      if condition.Some? && !ValidConditional(condition.value) {
        return Some(InvalidConditional(condition.value + " is not a valid conditional."));
      }
      var segment := Current();
      queryData := Put(queryData, querySet, segment.(where := segment.where + [Condition(field, value, condition)]));
      return None;
    }

    /** `order($field, $order)`: appends the lower-cased direction, or raises
        InvalidOrder and changes nothing. */
    method Order(field: string, order: string) returns (err: Option<QueryError>)
      requires Valid()
      modifies this
      ensures Valid()
      ensures querySet == old(querySet)
      ensures var direction := ToLower(order);
        err == if direction != ORDER_ASC && direction != ORDER_DESC
          then Some(InvalidOrder(direction + " is not a valid order."))
          else None
      ensures err.Some? ==> queryData == old(queryData)
      ensures err.None? ==> queryData == Put(old(queryData), querySet,
        old(Current()).(order := old(Current()).order + [OrderBy(field, ToLower(order))]))
      ensures queryData[..querySet] == old(queryData)[..querySet]
    {
      var direction := ToLower(order);
      if direction != ORDER_ASC && direction != ORDER_DESC {
        return Some(InvalidOrder(direction + " is not a valid order."));
      }
      var segment := Current();
      queryData := Put(queryData, querySet, segment.(order := segment.order + [OrderBy(field, direction)]));
      return None;
    }

    /** `join($table, $on, $type)`: records the join on the current slot, moves
        the cursor one slot on and opens it for the joined table; or raises
        InvalidJoin and changes nothing. */
    method Join(table: string, on: PhpArray, joinType: string := JOIN_INNER) returns (err: Option<QueryError>)
      requires Valid()
      modifies this
      ensures Valid()
      ensures err == if !ValidJoin(joinType)
        then Some(InvalidJoin(joinType + " is not a valid join type."))
        else None
      ensures err.Some? ==> queryData == old(queryData) && querySet == old(querySet)
      ensures err.None? ==> querySet == old(querySet) + 1 && Opened()
      ensures err.None? ==> (queryData ==
        Put(Put(old(queryData), old(querySet), old(Current()).(join := Some(JoinSpec(table, on, joinType)))),
            querySet, NewSegment(table)))
      ensures queryData[..old(querySet)] == old(queryData)[..old(querySet)]
    {
      if !ValidJoin(joinType) {
        return Some(InvalidJoin(joinType + " is not a valid join type."));
      }
      var segment := Current();
      queryData := Put(queryData, querySet, segment.(join := Some(JoinSpec(table, on, joinType))));
      querySet := querySet + 1;
      Table(table);
      return None;
    }

    /** `getQueryData()`: the slots, read without change. */
    method GetQueryData() returns (data: seq<Segment>)
      ensures data == queryData
    {
      data := queryData;
    }
  }

  /* The chains of the unit tests for Query, with the results they expect. */

  method TableScenario()
  {
    var q := new Query();
    q.Table("test");
    var data := q.GetQueryData();
    assert data[0].table == Some("test");
  }

  method SelectScenario()
  {
    var q := new Query();
    q.Table("test");
    q.Select(["column1", "column2"]);
    q.Select(["column2", "column3"]);
    var data := q.GetQueryData();
    assert data[0].fields == ["column1", "column2", "column3"];
  }

  method WhereScenario()
  {
    var q := new Query();
    q.Table("test");
    var err := q.Where("column", Str("value"), None);
    ToLowerNoUpper(NOT_EQ);
    err := q.Where("column2", Str(":test"), Some(NOT_EQ));
    assert err == None;
    var data := q.GetQueryData();
    assert data[0].where == [Condition("column", Str("value"), None), Condition("column2", Str(":test"), Some(NOT_EQ))];
  }

  method OrderScenario()
  {
    var q := new Query();
    q.Table("test");
    ToLowerNoUpper(ORDER_ASC);
    var err := q.Order("column1", ORDER_ASC);
    assert ToLower("DESC") == ORDER_DESC;
    err := q.Order("column2", "DESC");
    var data := q.GetQueryData();
    assert data[0].order == [OrderBy("column1", ORDER_ASC), OrderBy("column2", ORDER_DESC)];
  }

  /** The join test names an undeclared constant, JOIN_TYPE_INNER, for the
      expected type; the class declares the default as JOIN_INNER. */
  method JoinScenario()
  {
    var q := new Query();
    q.Table("test");
    var on := [(StrKey("column1"), Str("column1_fk"))];
    ToLowerNoUpper(JOIN_INNER);
    var err := q.Join("joinTable", on);
    assert err == None;
    var data := q.GetQueryData();
    assert data[0].join == Some(JoinSpec("joinTable", on, JOIN_INNER));
    assert q.querySet == 1 && data[1] == NewSegment("joinTable");
  }
}
