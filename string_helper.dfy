/**
 * General string helpers of the query layer (src/InQuery/Helpers/StringHelper.php).
 * `hashString` is md5 in the source; the model never looks inside it and
 * hands the rest of the core a deterministic function `string -> string`
 * as a parameter instead (see MySqlHelper.BuildWhere).
 */
module StringHelper {
  import opened Php

  /** The glue `joinLines` uses when the caller gives none. */
  const DEFAULT_GLUE: string := " "

  /** `isEmpty`: the string is the empty string once trimmed. */
  function IsEmpty(s: string): (empty: bool)
    ensures empty <==> forall i :: 0 <= i < |s| ==> IsTrimChar(s[i])
  {
    TrimEmptyIff(s);
    Trim(s) == ""
  }

  /** `array_map('trim', $lines)`. */
  function TrimAll(lines: seq<string>): (r: seq<string>)
    ensures |r| == |lines|
    ensures forall i :: 0 <= i < |lines| ==> r[i] == Trim(lines[i])
  {
    seq(|lines|, i requires 0 <= i < |lines| => Trim(lines[i]))
  }

  /** `joinLines`: trim each line, join them with the glue, trim the result. */
  function JoinLines(lines: seq<string>, glue: string): (r: string)
  {
    Trim(Implode(glue, TrimAll(lines)))
  }

  /** `joinLines($lines)` with the default glue, a single space. */
  function JoinLinesDefault(lines: seq<string>): (r: string)
  {
    JoinLines(lines, DEFAULT_GLUE)
  }

  /** The joined result never starts or ends with a trim character. */
  lemma JoinLinesTrimmed(lines: seq<string>, glue: string)
    ensures var r := JoinLines(lines, glue);
      r == [] || (!IsTrimChar(r[0]) && !IsTrimChar(r[|r| - 1]))
  {
    TrimEnds(Implode(glue, TrimAll(lines)));
  }

  /** No lines join to the empty string. */
  lemma JoinLinesEmpty(glue: string)
    ensures JoinLines([], glue) == ""
  {
  }

  /** A single line joins to that line trimmed. */
  lemma JoinLinesSingle(line: string, glue: string)
    ensures JoinLines([line], glue) == Trim(line)
  {
    assert TrimAll([line]) == [Trim(line)];
    TrimIdempotent(line);
  }

  /** Lines that are already trimmed, with non-empty first and last lines, join
      to their plain implosion: neither trimming step changes anything. */
  lemma JoinLinesPlain(lines: seq<string>, glue: string)
    requires forall i :: 0 <= i < |lines| ==> Trim(lines[i]) == lines[i]
    requires |lines| > 0 && lines[0] != [] && lines[|lines| - 1] != []
    ensures JoinLines(lines, glue) == Implode(glue, lines)
  {
    TrimAllTrimmed(lines);
    ImplodeTrimmed(glue, lines);
  }

  /** Trimming lines that are already trimmed changes none of them. */
  lemma TrimAllTrimmed(lines: seq<string>)
    requires forall i :: 0 <= i < |lines| ==> Trim(lines[i]) == lines[i]
    ensures TrimAll(lines) == lines
  {
  }

  /** Imploding trimmed lines with non-empty ends gives a trimmed string. */
  lemma ImplodeTrimmed(glue: string, lines: seq<string>)
    requires |lines| > 0 && lines[0] != [] && lines[|lines| - 1] != []
    requires Trim(lines[0]) == lines[0] && Trim(lines[|lines| - 1]) == lines[|lines| - 1]
    ensures Trim(Implode(glue, lines)) == Implode(glue, lines)
  {
    var first, last := lines[0], lines[|lines| - 1];
    TrimFixedPoint(first);
    TrimFixedPoint(last);
    ImplodeFirst(glue, lines);
    ImplodeLast(glue, lines);
    TrimFixedPoint(Implode(glue, lines));
  }

  /** With the default glue, trimmed lines with non-empty ends are joined by single spaces. */
  lemma JoinLinesDefaultPlain(lines: seq<string>)
    requires forall i :: 0 <= i < |lines| ==> Trim(lines[i]) == lines[i]
    requires |lines| > 0 && lines[0] != [] && lines[|lines| - 1] != []
    ensures JoinLinesDefault(lines) == Implode(" ", lines)
  {
    JoinLinesPlain(lines, DEFAULT_GLUE);
  }
}
