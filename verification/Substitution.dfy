// What a text becomes when its parameters are replaced by their values.

module Substitution {
  import opened CStrings
  import opened Context
  import opened ShellText
  import opened Lexer

  // ---- As it is computed -----------------------------------------------------------------

  /** The value of a parameter; an unset one has none. */
  function ValueOf(env: map<string, string>, status: int, name: string): string {
    if name == "?" then Itoa(status) else if name in env then env[name] else []
  }

  /** The line with its parameters replaced by their values; quotes have no meaning here. */
  function ExpandLine(env: map<string, string>, status: int, text: string): string
    decreases |text|
  {
    if text == [] then []
    else if IsExpansionStart(text, 0) then
      var n := ExpansionLen(text, 0);
      ValueOf(env, status, text[1..n]) + ExpandLine(env, status, text[n..])
    else text[..1] + ExpandLine(env, status, text[1..])
  }

  // ---- As it is meant --------------------------------------------------------------------

  /** What a parameter stands for: the last status, a variable's value, or nothing. */
  predicate IsValue(env: map<string, string>, status: int, name: string, val: string) {
    if name == "?" then val == Itoa(status) else if name in env then val == env[name] else val == ""
  }

  ghost predicate ParameterStarts(text: string, i: nat) {
    exists j: nat :: IsParameter(text, i, j)
  }

  /** The text is copied but for its parameters, which are replaced by their values. */
  ghost predicate Writes(env: map<string, string>, status: int, text: string, out: string)
    decreases |text|
  {
    if text == [] then out == []
    else if ParameterStarts(text, 0) then
      exists j: nat, val: string ::
        && IsParameter(text, 0, j) && IsValue(env, status, text[1..j], val)
        && val <= out && Writes(env, status, text[j..], out[|val|..])
    else out != [] && out[0] == text[0] && Writes(env, status, text[1..], out[1..])
  }

  lemma ParameterOrNot(text: string, i: nat)
    ensures ParameterStarts(text, i) <==> IsExpansionStart(text, i)
    ensures IsExpansionStart(text, i) ==> IsParameter(text, i, i + ExpansionLen(text, i))
  {
    if IsExpansionStart(text, i) { ExpansionIsParameter(text, i); }
    if j: nat :| IsParameter(text, i, j) { ParameterIsExpansion(text, i, j); }
  }

  lemma ValueWritten(env: map<string, string>, status: int, text: string, j: nat, val: string, rest: string)
    requires IsParameter(text, 0, j) && IsValue(env, status, text[1..j], val) && Writes(env, status, text[j..], rest)
    ensures Writes(env, status, text, val + rest)
  {
    assert ParameterStarts(text, 0);
    assert (val + rest)[|val|..] == rest;
  }

  lemma CharWritten(env: map<string, string>, status: int, text: string, rest: string)
    requires text != [] && !ParameterStarts(text, 0) && Writes(env, status, text[1..], rest)
    ensures Writes(env, status, text, text[..1] + rest)
  {
    assert (text[..1] + rest)[1..] == rest;
  }

  lemma {:induction false} LineIsWritten(env: map<string, string>, status: int, text: string)
    ensures Writes(env, status, text, ExpandLine(env, status, text))
    decreases |text|
  {
    hide IsExpansionStart, ParameterStarts, Writes, Itoa, IsParameter;
    if text == [] {
      NothingWritten(env, status);
    } else {
      ParameterOrNot(text, 0);
      if IsExpansionStart(text, 0) {
        var j := ExpansionLen(text, 0);
        LineIsWritten(env, status, text[j..]);
        ValueWritten(env, status, text, j, ValueOf(env, status, text[1..j]), ExpandLine(env, status, text[j..]));
      } else {
        LineIsWritten(env, status, text[1..]);
        CharWritten(env, status, text, ExpandLine(env, status, text[1..]));
      }
    }
  }

  lemma NothingWritten(env: map<string, string>, status: int)
    ensures Writes(env, status, [], [])
  {
  }

  lemma SameValue(env: map<string, string>, status: int, name: string, a: string, b: string)
    requires IsValue(env, status, name, a) && IsValue(env, status, name, b)
    ensures a == b
  {
  }

  /** There is one way to write a text. */
  lemma {:induction false} WritesOnce(env: map<string, string>, status: int, text: string, a: string, b: string)
    requires Writes(env, status, text, a) && Writes(env, status, text, b)
    ensures a == b
    decreases |text|
  {
    hide ParameterStarts, IsValue, ContinuesName, StartsName, Writes;
    if text == [] {
      NothingElse(env, status, text, a);
      NothingElse(env, status, text, b);
    } else if ParameterStarts(text, 0) {
      var j := EndOfParameter(text);
      var u := ParameterWritten(env, status, text, j, a);
      var v := ParameterWritten(env, status, text, j, b);
      SameValue(env, status, text[1..j], u, v);
      WritesOnce(env, status, text[j..], a[|u|..], b[|u|..]);
      assert a == u + a[|u|..] && b == u + b[|u|..];
    } else {
      CharIsWritten(env, status, text, a);
      CharIsWritten(env, status, text, b);
      WritesOnce(env, status, text[1..], a[1..], b[1..]);
      assert a == [a[0]] + a[1..] && b == [b[0]] + b[1..];
    }
  }

  lemma EndOfParameter(text: string) returns (j: nat)
    requires ParameterStarts(text, 0)
    ensures IsParameter(text, 0, j)
  {
    j :| IsParameter(text, 0, j);
  }

  lemma CharIsWritten(env: map<string, string>, status: int, text: string, out: string)
    requires text != [] && !ParameterStarts(text, 0) && Writes(env, status, text, out)
    ensures out != [] && out[0] == text[0] && Writes(env, status, text[1..], out[1..])
  {
  }

  /** What comes before the first parameter is written as it is, and behind it its value and the rest. */
  lemma WrittenThrough(env: map<string, string>, status: int, text: string, n: nat, j: nat, out: string)
    returns (val: string, rest: string)
    requires forall k: nat :: k < n ==> !ParameterStarts(text, k)
    requires IsParameter(text, n, j) && Writes(env, status, text, out)
    ensures IsValue(env, status, text[n + 1..j], val) && out == text[..n] + val + rest
    ensures Writes(env, status, text[j..], rest)
  {
    hide IsValue, ParameterStarts, Writes;
    WrittenPrefix(env, status, text, n, out);
    ParameterOfRest(text, n, j);
    val := ParameterWritten(env, status, text[n..], j - n, out[n..]);
    assert text[n..][1..j - n] == text[n + 1..j] && text[n..][j - n..] == text[j..];
    rest := out[n..][|val|..];
    assert out == text[..n] + val + rest;
  }

  /** A line without a parameter is written as it is. */
  lemma WrittenAsIs(env: map<string, string>, status: int, text: string, out: string)
    requires Writes(env, status, text, out) && forall k: nat :: k < |text| ==> !ParameterStarts(text, k)
    ensures out == text
  {
    hide IsValue, ParameterStarts, Writes;
    WrittenPrefix(env, status, text, |text|, out);
    NothingElse(env, status, text[|text|..], out[|text|..]);
  }

  lemma NothingElse(env: map<string, string>, status: int, text: string, out: string)
    requires text == [] && Writes(env, status, text, out)
    ensures out == []
  {
  }

  lemma ParameterWritten(env: map<string, string>, status: int, text: string, j: nat, out: string) returns (val: string)
    requires IsParameter(text, 0, j) && Writes(env, status, text, out)
    ensures IsValue(env, status, text[1..j], val) && val <= out && Writes(env, status, text[j..], out[|val|..])
  {
    hide IsValue, ContinuesName, StartsName;
    assert ParameterStarts(text, 0);
    var k: nat, v: string :| IsParameter(text, 0, k) && IsValue(env, status, text[1..k], v)
      && v <= out && Writes(env, status, text[k..], out[|v|..]);
    ParameterEndsOnce(text, 0, j, k);
    val := v;
  }

  lemma ParameterOfRest(text: string, n: nat, j: nat)
    requires n <= |text|
    ensures n <= j ==> (IsParameter(text, n, j) <==> IsParameter(text[n..], 0, j - n))
  {
    if n + 2 <= j <= |text| {
      assert forall k :: n <= k < |text| ==> text[n..][k - n] == text[k];
      if IsParameter(text[n..], 0, j - n) {
        forall k | n + 2 <= k < j && text[n + 1] != '?' ensures ContinuesName(text[k]) {
          assert text[n..][k - n] == text[k];
        }
      }
    }
  }

  lemma StartsInRest(text: string, n: nat, i: nat)
    requires n <= |text|
    ensures ParameterStarts(text[n..], i) <==> ParameterStarts(text, n + i)
  {
    ParameterOrNot(text[n..], i);
    ParameterOrNot(text, n + i);
  }

  lemma {:induction false} WrittenPrefix(env: map<string, string>, status: int, text: string, n: nat, out: string)
    requires n <= |text| && Writes(env, status, text, out) && forall k: nat :: k < n ==> !ParameterStarts(text, k)
    ensures n <= |out| && out[..n] == text[..n] && Writes(env, status, text[n..], out[n..])
    decreases n
  {
    hide IsValue, IsParameter, ParameterStarts;
    if n == 0 {
      assert text[0..] == text && out[0..] == out;
    } else {
      assert !ParameterStarts(text, 0);
      forall k: nat | k < n - 1 ensures !ParameterStarts(text[1..], k) {
        StartsInRest(text, 1, k);
      }
      WrittenPrefix(env, status, text[1..], n - 1, out[1..]);
      assert text[1..][n - 1..] == text[n..] && out[1..][n - 1..] == out[n..];
      assert text[..n] == [text[0]] + text[1..][..n - 1] && out[..n] == [out[0]] + out[1..][..n - 1];
    }
  }
}
