// What a text is without its quotes, told apart from the loop that removes them.

module Unquoting {
  import opened CStrings
  import opened ShellText
  import opened QuoteRemoval

  /** Each quote that is closed is dropped with the one that closes it; what is between them stays. */
  ghost predicate Unquotes(text: string, out: string)
    decreases |text|
  {
    if text == [] then out == []
    else if QuoteOpens(text, 0) then
      exists j: nat ::
        IsClosedQuote(text, 0, j) && text[1..j - 1] <= out && Unquotes(text[j..], out[j - 2..])
    else out != [] && out[0] == text[0] && Unquotes(text[1..], out[1..])
  }

  lemma EnclosedOrNot(s: string)
    requires s != []
    ensures Enclosed(s) >= 0 <==> QuoteOpens(s, 0)
    ensures Enclosed(s) >= 0 ==> IsClosedQuote(s, 0, 2 + Enclosed(s))
  {
    IndexOfIsFirst(s[1..], s[0]);
    if Enclosed(s) >= 0 {
      var n := Enclosed(s);
      forall k | 0 < k < n + 1 ensures s[k] != s[0] {
        assert s[k] == s[1..][..n][k - 1];
      }
      assert IsClosedQuote(s, 0, 2 + n);
    }
    if j: nat :| IsClosedQuote(s, 0, j) {
      assert s[1..][j - 2] == s[0];
    }
  }

  /** Quote removal leaves the text without its quotes. */
  lemma {:induction false} RemovedIsUnquoted(s: string)
    ensures Unquotes(s, QuoteRemove(s))
    decreases |s|
  {
    hide Enclosed, QuoteOpens;
    if s != [] {
      EnclosedOrNot(s);
      if Enclosed(s) >= 0 {
        var j := 2 + Enclosed(s);
        RemovedIsUnquoted(s[j..]);
        assert QuoteRemove(s)[j - 2..] == QuoteRemove(s[j..]);
      } else {
        RemovedIsUnquoted(s[1..]);
        assert QuoteRemove(s)[1..] == QuoteRemove(s[1..]);
      }
    }
  }

  /** There is one text without the quotes. */
  lemma {:induction false} UnquotesOnce(text: string, a: string, b: string)
    requires Unquotes(text, a) && Unquotes(text, b)
    ensures a == b
    decreases |text|
  {
    hide QuoteOpens, IsClosedQuote, Unquotes;
    if text == [] {
      NothingLeft(text, a);
      NothingLeft(text, b);
    } else if QuoteOpens(text, 0) {
      var j := QuotedFirst(text, a);
      var k := QuotedFirst(text, b);
      QuoteEndsOnce(text, 0, j, k);
      UnquotesOnce(text[j..], a[j - 2..], b[j - 2..]);
      assert a == text[1..j - 1] + a[j - 2..] && b == text[1..j - 1] + b[j - 2..];
    } else {
      CharFirst(text, a);
      CharFirst(text, b);
      UnquotesOnce(text[1..], a[1..], b[1..]);
      assert a == [a[0]] + a[1..] && b == [b[0]] + b[1..];
    }
  }

  lemma NothingLeft(text: string, out: string)
    requires text == [] && Unquotes(text, out)
    ensures out == []
  {
  }

  lemma QuotedFirst(text: string, out: string) returns (j: nat)
    requires QuoteOpens(text, 0) && Unquotes(text, out)
    ensures 2 <= j <= |text| && IsClosedQuote(text, 0, j) && text[1..j - 1] <= out
    ensures Unquotes(text[j..], out[j - 2..])
  {
    hide QuoteOpens;
    assert text != [] by { SomeQuote(text); }
    j :| IsClosedQuote(text, 0, j) && text[1..j - 1] <= out && Unquotes(text[j..], out[j - 2..]);
  }

  lemma SomeQuote(text: string)
    requires QuoteOpens(text, 0)
    ensures text != []
  {
  }

  lemma CharFirst(text: string, out: string)
    requires text != [] && !QuoteOpens(text, 0) && Unquotes(text, out)
    ensures out != [] && out[0] == text[0] && Unquotes(text[1..], out[1..])
  {
  }
}
