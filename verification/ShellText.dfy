// What the characters of the shell's input stand for, told apart from the code that reads them: how
// operators are spelled, what a quote encloses, where a parameter's name ends.

module ShellText {
  import opened Grammar

  // ---- Operators -------------------------------------------------------------------------

  predicate IsOperator(kind: Symbol) {
    SYM_NEWLINE <= kind <= SYM_CPAR
  }

  /** How each operator is written. */
  function Spelling(kind: Symbol): string
    requires IsOperator(kind)
  {
    if kind == SYM_NEWLINE then "\n"
    else if kind == SYM_PIPE then "|"
    else if kind == SYM_LESS then "<"
    else if kind == SYM_GREAT then ">"
    else if kind == SYM_DLESS then "<<"
    else if kind == SYM_DGREAT then ">>"
    else if kind == SYM_AND_IF then "&&"
    else if kind == SYM_OR_IF then "||"
    else if kind == SYM_OPAR then "("
    else ")"
  }

  /** No two operators are written alike. */
  lemma SpellingsDiffer(a: Symbol, b: Symbol)
    requires IsOperator(a) && IsOperator(b) && Spelling(a) == Spelling(b)
    ensures a == b
  {
    var s, t := Spelling(a), Spelling(b);
    assert s[0] == t[0] && |s| == |t|;
  }

  /** The operator is written at `i`. */
  predicate Spelled(text: string, i: nat, kind: Symbol)
    requires IsOperator(kind)
  {
    i + |Spelling(kind)| <= |text| && text[i..i + |Spelling(kind)|] == Spelling(kind)
  }

  /** Some operator is written at `i`. */
  ghost predicate OperatorStarts(text: string, i: nat) {
    exists kind: Symbol :: IsOperator(kind) && Spelled(text, i, kind)
  }

  /** The longest operator that is written at `i`. */
  ghost predicate OperatorIs(text: string, i: nat, kind: Symbol) {
    && IsOperator(kind) && Spelled(text, i, kind)
    && forall other: Symbol ::
      IsOperator(other) && Spelled(text, i, other) ==> |Spelling(other)| <= |Spelling(kind)|
  }

  // ---- Blanks, quotes, parameters --------------------------------------------------------

  predicate BlankAt(text: string, i: nat) {
    i < |text| && (text[i] == ' ' || text[i] == '\t')
  }

  predicate QuoteAt(text: string, i: nat) {
    i < |text| && (text[i] == '\'' || text[i] == '"')
  }

  /** From a quote to the next one like it. */
  predicate IsClosedQuote(text: string, i: nat, j: nat) {
    && i + 2 <= j <= |text| && QuoteAt(text, i) && text[j - 1] == text[i]
    && forall k :: i < k < j - 1 ==> text[k] != text[i]
  }

  ghost predicate QuoteOpens(text: string, i: nat) {
    exists j: nat :: IsClosedQuote(text, i, j)
  }

  /** A quote that is not closed. */
  predicate IsLoneQuote(text: string, i: nat) {
    QuoteAt(text, i) && forall k :: i < k < |text| ==> text[k] != text[i]
  }

  predicate StartsName(c: char) {
    'a' <= c <= 'z' || 'A' <= c <= 'Z' || c == '_'
  }

  predicate ContinuesName(c: char) {
    'a' <= c <= 'z' || 'A' <= c <= 'Z' || '0' <= c <= '9' || c == '_'
  }

  /** A `$` with the special parameter `?`, or with a name up to where it ends. */
  predicate IsParameter(text: string, i: nat, j: nat) {
    && i + 2 <= j <= |text| && text[i] == '$'
    && if text[i + 1] == '?' then j == i + 2
       else
         && StartsName(text[i + 1]) && (forall k :: i + 2 <= k < j ==> ContinuesName(text[k]))
         && (j < |text| ==> !ContinuesName(text[j]))
  }

  /** A parameter ends in one place only. */
  lemma ParameterEndsOnce(text: string, i: nat, j: nat, k: nat)
    requires IsParameter(text, i, j) && IsParameter(text, i, k)
    ensures j == k
  {
  }

  lemma QuoteEndsOnce(text: string, i: nat, j: nat, k: nat)
    requires IsClosedQuote(text, i, j) && IsClosedQuote(text, i, k)
    ensures j == k
  {
  }

  /** Two quotes that are alike. */
  ghost predicate PairIn(text: string, i: nat, j: nat) {
    exists a: nat, b: nat :: i <= a < b < j && QuoteAt(text, a) && b < |text| && text[b] == text[a]
  }

  /** The text has quotes that enclose something. */
  ghost predicate HoldsQuotes(text: string) {
    PairIn(text, 0, |text|)
  }

  lemma PairInSlice(text: string, i: nat, j: nat)
    requires i <= j <= |text|
    ensures PairIn(text, i, j) <==> HoldsQuotes(text[i..j])
  {
    var part := text[i..j];
    if PairIn(text, i, j) {
      var a: nat, b: nat :| i <= a < b < j && QuoteAt(text, a) && b < |text| && text[b] == text[a];
      assert QuoteAt(part, a - i) && part[b - i] == part[a - i];
    }
    if HoldsQuotes(part) {
      var a: nat, b: nat :| a < b < |part| && QuoteAt(part, a) && b < |part| && part[b] == part[a];
      assert QuoteAt(text, a + i) && text[b + i] == text[a + i];
    }
  }
}
