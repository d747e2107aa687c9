// NUL-terminated strings in character buffers, and the character sets of the shell.

module CStrings {
  const NUL := 0 as char

  /** The string that starts a buffer: everything before its first NUL. */
  function Str(buf: seq<char>): string {
    if buf == [] || buf[0] == NUL then [] else [buf[0]] + Str(buf[1..])
  }

  predicate EndsInNewline(line: string) {
    line != [] && line[|line| - 1] == '\n'
  }

  function Joined(lines: seq<string>): string {
    if lines == [] then [] else lines[0] + Joined(lines[1..])
  }

  lemma {:induction false} JoinedConcat(a: seq<string>, b: seq<string>)
    ensures Joined(a + b) == Joined(a) + Joined(b)
  {
    if a == [] {
      assert a + b == b;
    } else {
      assert (a + b)[1..] == a[1..] + b;
      JoinedConcat(a[1..], b);
    }
  }

  lemma JoinedSnoc(a: seq<string>, b: string)
    ensures Joined(a + [b]) == Joined(a) + b
  {
    JoinedConcat(a, [b]);
    assert Joined([b]) == b;
  }

  /** A string value holds no NUL. */
  predicate IsCString(s: string) {
    NUL !in s
  }

  predicate IsQuote(c: char) {
    c == '\'' || c == '"'
  }

  predicate IsBlank(c: char) {
    c == ' ' || c == '\t'
  }

  predicate IsIfs(c: char) {
    c == ' ' || c == '\t' || c == '\n'
  }

  predicate IsNameStart(c: char) {
    'a' <= c <= 'z' || 'A' <= c <= 'Z' || c == '_'
  }

  predicate IsNameBody(c: char) {
    IsNameStart(c) || '0' <= c <= '9'
  }

  /** A `$` that starts a parameter expansion: a name or the special parameter `?` follows. */
  predicate IsExpansionStart(s: string, i: nat) {
    i + 1 < |s| && s[i] == '$' && (IsNameStart(s[i + 1]) || s[i + 1] == '?')
  }

  /** The index of the first `c`, or the length if there is none. */
  function IndexOf(s: string, c: char): (k: nat)
    ensures k <= |s| && (k < |s| ==> s[k] == c)
  {
    if s == [] || s[0] == c then 0 else 1 + IndexOf(s[1..], c)
  }

  lemma {:induction false} IndexOfIsFirst(s: string, c: char)
    ensures c !in s[..IndexOf(s, c)]
    ensures IndexOf(s, c) == |s| <==> c !in s
  {
    if s != [] && s[0] != c {
      IndexOfIsFirst(s[1..], c);
      assert s == [s[0]] + s[1..];
      assert s[..IndexOf(s, c)] == [s[0]] + s[1..][..IndexOf(s[1..], c)];
    }
  }

  /** The decimal digits of a number. */
  function Digits(n: nat): string {
    (if n < 10 then [] else Digits(n / 10)) + [('0' as int + n % 10) as char]
  }

  function Itoa(n: int): string {
    if n < 0 then "-" + Digits(-n) else Digits(n)
  }

  predicate AreDigits(s: string) {
    forall i :: 0 <= i < |s| ==> '0' <= s[i] <= '9'
  }

  /** The number that decimal digits stand for. */
  function Decimal(s: string): nat
    requires AreDigits(s)
  {
    if s == [] then 0 else 10 * Decimal(s[..|s| - 1]) + (s[|s| - 1] as int - '0' as int)
  }

  lemma {:induction false} DigitsAreDecimal(n: nat)
    ensures Digits(n) != [] && AreDigits(Digits(n)) && Decimal(Digits(n)) == n
    ensures n > 0 ==> Digits(n)[0] != '0'
  {
    var last := ('0' as int + n % 10) as char;
    if n < 10 {
      assert Digits(n) == [last] && Digits(n)[..0] == [];
    } else {
      DigitsAreDecimal(n / 10);
      assert Digits(n) == Digits(n / 10) + [last];
      assert Digits(n)[..|Digits(n)| - 1] == Digits(n / 10);
    }
  }

  /** A number is written as its decimal digits, behind a sign if it is negative, without a leading zero. */
  lemma ItoaIsDecimal(n: int)
    ensures n >= 0 ==> AreDigits(Itoa(n)) && Decimal(Itoa(n)) == n
    ensures n < 0 ==> Itoa(n) != [] && Itoa(n)[0] == '-' && AreDigits(Itoa(n)[1..]) && Decimal(Itoa(n)[1..]) == -n
    ensures n > 0 ==> Itoa(n)[0] != '0'
    ensures n < 0 ==> |Itoa(n)| > 1 && Itoa(n)[1] != '0'
  {
    DigitsAreDecimal(if n < 0 then -n else n);
    assert n < 0 ==> Itoa(n)[1..] == Digits(-n);
  }

  lemma {:induction false} StrOfTerminated(buf: seq<char>, s: string)
    requires IsCString(s) && |s| < |buf| && buf[..|s|] == s && buf[|s|] == NUL
    ensures Str(buf) == s
  {
    if s != [] {
      assert buf[0] == s[0];
      assert s[0] != NUL;
      StrOfTerminated(buf[1..], s[1..]);
    }
  }
}
