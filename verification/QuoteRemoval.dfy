// Quote removal of a here-document delimiter, in place with a read and a write index.

module QuoteRemoval {
  import opened CStrings

  /** The length of what a quote at the start encloses, or -1 if it is not closed. */
  function Enclosed(s: string): (n: int)
    requires s != []
    ensures -1 <= n <= |s| - 2 || n == -1
  {
    if IsQuote(s[0]) && IndexOf(s[1..], s[0]) < |s[1..]| then IndexOf(s[1..], s[0]) else -1
  }

  /** Drops each pair of matching quotes, keeping what they enclose; a lone quote stays. */
  function QuoteRemove(s: string): string
    decreases |s|
  {
    if s == [] then []
    else if Enclosed(s) < 0 then s[..1] + QuoteRemove(s[1..])
    else s[1..1 + Enclosed(s)] + QuoteRemove(s[2 + Enclosed(s)..])
  }

  lemma {:induction false} QuoteRemoveShrinks(s: string)
    requires IsCString(s)
    ensures |QuoteRemove(s)| <= |s| && IsCString(QuoteRemove(s))
    decreases |s|
  {
    hide Enclosed;
    if s != [] {
      QuoteRemoveShrinks(s[if Enclosed(s) < 0 then 1 else 2 + Enclosed(s)..]);
    }
  }

  /** The buffer holds `rest` and its NUL from index `i` on. */
  ghost predicate HoldsAt(s: array<char>, i: nat, rest: string)
    reads s
  {
    && i + |rest| < s.Length && s[i + |rest|] == NUL
    && forall j :: i <= j < i + |rest| ==> s[j] == rest[j - i]
  }

  /** The buffer starts with `done`. */
  ghost predicate StartsWith(s: array<char>, done: string)
    reads s
  {
    |done| <= s.Length && forall j :: 0 <= j < |done| ==> s[j] == done[j]
  }

  /** The offset of the first `c` in the string at `i`, or -1. */
  method FtIndchr(s: array<char>, i: nat, c: char, ghost rest: string) returns (k: int)
    requires IsCString(rest) && HoldsAt(s, i, rest) && c != NUL
    ensures k == if IndexOf(rest, c) < |rest| then IndexOf(rest, c) else -1
  {
    k := 0;
    while s[i + k] != NUL
      invariant 0 <= k <= |rest| && IndexOf(rest, c) == k + IndexOf(rest[k..], c)
      decreases |rest| - k
    {
      assert s[i + k] == rest[k..][0];
      if s[i + k] == c {
        return;
      }
      k := k + 1;
    }
    k := -1;
  }

  /** Moves `n` characters from the read to the write position, behind which nothing changes. */
  method CopyChars(s: array<char>, r: nat, w: nat, n: nat, ghost done: string, ghost moved: string)
    requires w <= r && r + n <= s.Length && StartsWith(s, done) && w == |done|
    requires |moved| == n && forall j :: r <= j < r + n ==> s[j] == moved[j - r]
    modifies s
    ensures StartsWith(s, done + moved)
    ensures forall j :: w + n <= j < s.Length ==> s[j] == old(s[j])
  {
    for i := 0 to n
      invariant StartsWith(s, done + moved[..i])
      invariant forall j :: w + i <= j < s.Length ==> s[j] == old(s[j])
    {
      s[w + i] := s[r + i];
    }
    assert moved[..n] == moved;
  }

  lemma RemoveStep(done: string, rest: string, end: int)
    requires rest != []
    requires end == if IsQuote(rest[0]) && IndexOf(rest[1..], rest[0]) < |rest[1..]| then IndexOf(rest[1..], rest[0])
      else -1
    ensures end == Enclosed(rest) && end <= |rest| - 2
    ensures end < 0 ==> done + rest[..1] + QuoteRemove(rest[1..]) == done + QuoteRemove(rest)
    ensures end >= 0 ==> done + rest[1..1 + end] + QuoteRemove(rest[2 + end..]) == done + QuoteRemove(rest)
  {
  }

  /** The write index never passes the read index, so what is still to be read is untouched. */
  method QuoteRemoveInplace(s: array<char>, ghost text: string)
    requires IsCString(text) && HoldsAt(s, 0, text)
    modifies s
    ensures HoldsAt(s, 0, QuoteRemove(text))
    ensures forall i :: |QuoteRemove(text)| < i < s.Length ==> s[i] == old(s[i])
  {
    hide QuoteRemove, Enclosed, IndexOf, IsCString, IsQuote;
    var r, w := 0, 0;
    ghost var rest, done := text, [];
    while s[r] != NUL
      invariant 0 <= w <= r && IsCString(rest) && HoldsAt(s, r, rest)
      invariant w == |done| && StartsWith(s, done) && done + QuoteRemove(rest) == QuoteRemove(text)
      invariant forall i :: w <= i < s.Length ==> s[i] == old(s[i])
      decreases |rest|
    {
      var end := -1;
      RestIsCString(rest);
      if IsQuote(s[r]) {
        end := FtIndchr(s, r + 1, s[r], rest[1..]);
      }
      RemoveStep(done, rest, end);
      if end < 0 {
        CopyChars(s, r, w, 1, done, rest[..1]);
        w, r, rest, done := w + 1, r + 1, rest[1..], done + rest[..1];
      } else {
        r := r + 1;
        CopyChars(s, r, w, end, done, rest[1..1 + end]);
        w, r, rest, done := w + end, r + end, rest[2 + end..], done + rest[1..1 + end];
        r := r + 1;
      }
    }
    FirstIsNotNul(rest);
    NothingToRemove(rest);
    s[w] := NUL;
  }

  lemma RestIsCString(s: string)
    requires IsCString(s) && s != []
    ensures forall n :: 0 <= n <= |s| ==> IsCString(s[n..])
  {
  }

  lemma FirstIsNotNul(s: string)
    requires IsCString(s)
    ensures s != [] ==> s[0] != NUL
  {
  }

  lemma NothingToRemove(rest: string)
    requires rest == []
    ensures QuoteRemove(rest) == []
  {
  }
}
