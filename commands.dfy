/**
 * Built commands ready for a driver (src/InQuery/Commands/MySqlCommand.php,
 * src/InQuery/Commands/MockCommand.php). Both are records of a command type,
 * the command text and the query parameters, set once by the constructor
 * and read back by three getters; as datatypes they cannot change after
 * construction. The constructors do not check the type against the four
 * type constants of src/InQuery/Command.php, and neither does the model.
 */
module Commands {
  import opened Php

  /* Command types (Command.php:13-16). */
  const TYPE_FIND: string := "find"
  const TYPE_INSERT: string := "insert"
  const TYPE_UPDATE: string := "update"
  const TYPE_DELETE: string := "delete"

  /** A command of the SQL backend; params default to the empty array. */
  datatype MySqlCommand = MySqlCommand(commandType: string, command: string, params: PhpArray := [])
  {
    function GetCommand(): string { command }
    function GetParams(): PhpArray { params }
    function GetType(): string { commandType }
  }

  /** A command of the mock backend; params default to the empty array. */
  datatype MockCommand = MockCommand(commandType: string, command: string, params: PhpArray := [])
  {
    function GetCommand(): string { command }
    function GetType(): string { commandType }
    function GetParams(): PhpArray { params }
  }

  /** The getters return what the constructor was given. */
  lemma MySqlCommandGetters(commandType: string, command: string, params: PhpArray)
    ensures var c := MySqlCommand(commandType, command, params);
      c.GetType() == commandType && c.GetCommand() == command && c.GetParams() == params
  {
  }

  /** Without params, a command carries the empty array. */
  lemma MySqlCommandDefaultParams(commandType: string, command: string)
    ensures MySqlCommand(commandType, command).GetParams() == []
  {
  }

  /** Two commands are equal exactly when their three getters agree. */
  lemma MySqlCommandDeterminedByGetters(a: MySqlCommand, b: MySqlCommand)
    ensures a == b <==> a.GetType() == b.GetType() && a.GetCommand() == b.GetCommand() && a.GetParams() == b.GetParams()
  {
  }

  /** The getters return what the constructor was given. */
  lemma MockCommandGetters(commandType: string, command: string, params: PhpArray)
    ensures var c := MockCommand(commandType, command, params);
      c.GetType() == commandType && c.GetCommand() == command && c.GetParams() == params
  {
  }

  /** Without params, a command carries the empty array. */
  lemma MockCommandDefaultParams(commandType: string, command: string)
    ensures MockCommand(commandType, command).GetParams() == []
  {
  }

  /** Two commands are equal exactly when their three getters agree. */
  lemma MockCommandDeterminedByGetters(a: MockCommand, b: MockCommand)
    ensures a == b <==> a.GetType() == b.GetType() && a.GetCommand() == b.GetCommand() && a.GetParams() == b.GetParams()
  {
  }

  /** The find command of the unit test for commands reads back as built. */
  method MockCommandScenario()
  {
    var params := [(StrKey(":bananas"), Str("delicious"))];
    var c := MockCommand(TYPE_FIND, "SELECT bananas FROM monkeys WHERE bananas = :bananas", params);
    assert c.GetType() == TYPE_FIND;
    assert c.GetCommand() == "SELECT bananas FROM monkeys WHERE bananas = :bananas";
    assert c.GetParams() == params;
  }
}
