/**
 * The fragment of the PHP runtime that the query layer relies on: loosely
 * typed values and arrays, and the string builtins `trim`, `strtolower`,
 * `substr` and `implode`. Strings are sequences of characters; PHP works on
 * bytes, and every character the core inspects is ASCII.
 */
module Php {

  datatype Option<+T> = None | Some(value: T)

  /** A key of a PHP array: an integer or a string. */
  datatype Key = IntKey(i: int) | StrKey(s: string)

  /** A PHP value as the core sees it: null, the scalars and ordered arrays.
      A float is carried as a real number; no float arithmetic is modelled,
      and objects are not modelled at all. */
  datatype Value =
    | Null
    | Bool(b: bool)
    | Int(i: int)
    | Float(f: real)
    | Str(s: string)
    | Array(entries: seq<(Key, Value)>)

  /** An ordered PHP array, entries in insertion order. */
  type PhpArray = seq<(Key, Value)>

  /** The characters `trim` strips by default: " ", "\t", "\n", "\r", "\0", "\x0B". */
  predicate IsTrimChar(c: char)
  {
    c == ' ' || c == '\t' || c == '\n' || c == '\r' || c as int == 0 || c as int == 11
  }

  /** `ltrim`: drops the leading trim characters. */
  function TrimLeft(s: string): (r: string)
    ensures |r| <= |s| && r == s[|s| - |r|..]
    ensures forall i :: 0 <= i < |s| - |r| ==> IsTrimChar(s[i])
    ensures r == [] || !IsTrimChar(r[0])
  {
    if |s| > 0 && IsTrimChar(s[0]) then TrimLeft(s[1..]) else s
  }

  /** `rtrim`: drops the trailing trim characters. */
  function TrimRight(s: string): (r: string)
    ensures |r| <= |s| && r == s[..|r|]
    ensures forall i :: |r| <= i < |s| ==> IsTrimChar(s[i])
    ensures r == [] || !IsTrimChar(r[|r| - 1])
  {
    if |s| > 0 && IsTrimChar(s[|s| - 1]) then TrimRight(s[..|s| - 1]) else s
  }

  /** `trim`: drops the trim characters at both ends. */
  function Trim(s: string): (r: string)
  {
    TrimRight(TrimLeft(s))
  }

  /** A trimmed string has no trim character at either end. */
  lemma TrimEnds(s: string)
    ensures var r := Trim(s); r == [] || (!IsTrimChar(r[0]) && !IsTrimChar(r[|r| - 1]))
  {
    var l := TrimLeft(s);
    var r := TrimRight(l);
    assert r == l[..|r|];
    assert r != [] ==> r[0] == l[0];
  }

  /** A trimmed string is the slice of its input that starts after the leading
      trim characters. */
  lemma TrimSlice(s: string)
    ensures var r := Trim(s); var k := |s| - |TrimLeft(s)|;
      k + |r| <= |s| && r == s[k..k + |r|]
  {
    var l := TrimLeft(s);
    var r := TrimRight(l);
    var k := |s| - |l|;
    assert l == s[k..];
    assert r == l[..|r|];
  }

  /** A string is its own trim exactly when neither end is a trim character. */
  lemma TrimFixedPoint(s: string)
    ensures Trim(s) == s <==> (s == [] || (!IsTrimChar(s[0]) && !IsTrimChar(s[|s| - 1])))
  {
    if s != [] && !IsTrimChar(s[0]) && !IsTrimChar(s[|s| - 1]) {
      assert TrimLeft(s) == s;
      assert TrimRight(s) == s;
    } else if s != [] {
      TrimEnds(s);
    }
  }

  /** Trimming twice is trimming once. */
  lemma TrimIdempotent(s: string)
    ensures Trim(Trim(s)) == Trim(s)
  {
    TrimEnds(s);
    TrimFixedPoint(Trim(s));
  }

  /** `trim(s) === ''` holds exactly when every character of `s` is a trim character. */
  lemma TrimEmptyIff(s: string)
    ensures Trim(s) == [] <==> forall i :: 0 <= i < |s| ==> IsTrimChar(s[i])
  {
    var l := TrimLeft(s);
    assert l != [] ==> l[0] == s[|s| - |l|];
  }

  /** Trimming a single character keeps it unless it is a trim character. */
  lemma TrimSingle(c: char)
    ensures Trim([c]) == if IsTrimChar(c) then [] else [c]
  {
    assert [c][1..] == [];
    assert [c][..0] == [];
  }

  /** `substr($s, $start, $length)` for non-negative arguments; an out-of-range slice is empty. */
  function Substr(s: string, start: nat, length: nat): (r: string)
    ensures |r| <= length
    ensures start <= |s| ==> r == s[start..if start + length <= |s| then start + length else |s|]
    ensures start > |s| ==> r == []
  {
    if start >= |s| then []
    else if start + length <= |s| then s[start..start + length]
    else s[start..]
  }

  /** `strtolower` under the default locale: ASCII upper-case letters only. */
  function LowerChar(c: char): char
  {
    if 'A' <= c <= 'Z' then (c as int + 32) as char else c
  }

  function ToLower(s: string): (r: string)
    ensures |r| == |s|
  {
    seq(|s|, i requires 0 <= i < |s| => LowerChar(s[i]))
  }

  /** Lower-casing is idempotent, so a lower-case string is its own `strtolower`. */
  lemma ToLowerIdempotent(s: string)
    ensures ToLower(ToLower(s)) == ToLower(s)
  {
    var t := ToLower(s);
    forall i | 0 <= i < |s|
      ensures ToLower(t)[i] == t[i]
    {
      assert t[i] == LowerChar(s[i]);
    }
  }

  /** A string without upper-case ASCII letters is its own `strtolower`. */
  lemma ToLowerNoUpper(s: string)
    requires forall i :: 0 <= i < |s| ==> !('A' <= s[i] <= 'Z')
    ensures ToLower(s) == s
  {
  }

  /** `implode($glue, $pieces)`: the pieces separated by the glue. */
  function Implode(glue: string, pieces: seq<string>): (r: string)
    decreases |pieces|
  {
    if |pieces| == 0 then ""
    else if |pieces| == 1 then pieces[0]
    else pieces[0] + glue + Implode(glue, pieces[1..])
  }

  /** A non-empty first piece gives the imploded string its first character. */
  lemma {:induction false} ImplodeFirst(glue: string, pieces: seq<string>)
    requires |pieces| > 0 && pieces[0] != []
    ensures var r := Implode(glue, pieces); r != [] && r[0] == pieces[0][0]
  {
  }

  /** A non-empty last piece gives the imploded string its last character. */
  lemma {:induction false} ImplodeLast(glue: string, pieces: seq<string>)
    requires |pieces| > 0 && pieces[|pieces| - 1] != []
    ensures var r := Implode(glue, pieces);
      r != [] && r[|r| - 1] == pieces[|pieces| - 1][|pieces[|pieces| - 1]| - 1]
    decreases |pieces|
  {
    if |pieces| > 1 {
      ImplodeLast(glue, pieces[1..]);
    }
  }
}
