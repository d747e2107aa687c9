// What a here-document's body is to hold: its lines as they are behind a quoted delimiter, and else
// with each parameter replaced by its value.

module HereBodies {
  import opened CStrings
  import opened Context
  import opened ShellText
  import opened QuoteRemoval
  import opened AndOr
  import opened HereDocument
  import opened TokenHistory
  import opened RunInvariant
  import opened TokenFlow
  import opened Execution
  import opened ParseInput
  import opened Substitution
  import opened Unquoting

  ghost predicate AreWrittenLines(p: Piece, outs: seq<string>)
    requires p.BodyPiece?
  {
    |outs| == |p.lines| && forall i :: 0 <= i < |outs| ==> Writes(p.now.env, p.now.status, p.lines[i], outs[i])
  }

  /** Behind a quoted delimiter the lines as they are, and else with their parameters replaced. */
  ghost predicate IsBodyOf(p: Piece, body: string) {
    p.BodyPiece? && if p.quoted then body == Joined(p.lines)
      else exists outs: seq<string> :: AreWrittenLines(p, outs) && body == Joined(outs)
  }

  lemma {:induction false} QuotedBody(env: map<string, string>, status: int, lines: seq<string>)
    ensures BodyText(env, status, true, lines) == Joined(lines)
  {
    if lines != [] {
      var n := |lines| - 1;
      QuotedBody(env, status, lines[..n]);
      JoinedSnoc(lines[..n], lines[n]);
      assert lines == lines[..n] + [lines[n]];
    }
  }

  lemma {:induction false} ExpandedBody(env: map<string, string>, status: int, lines: seq<string>)
    returns (outs: seq<string>)
    ensures |outs| == |lines| && forall i :: 0 <= i < |outs| ==> Writes(env, status, lines[i], outs[i])
    ensures BodyText(env, status, false, lines) == Joined(outs)
  {
    hide Writes, ExpandLine;
    if lines == [] {
      outs := [];
    } else {
      var n := |lines| - 1;
      var init := ExpandedBody(env, status, lines[..n]);
      var last := ExpandLine(env, status, lines[n]);
      LineIsWritten(env, status, lines[n]);
      JoinedSnoc(init, last);
      outs := init + [last];
    }
  }

  lemma BodyIsWritten(p: Piece, body: string)
    requires p.BodyPiece? && body == BodyText(p.now.env, p.now.status, p.quoted, p.lines)
    ensures IsBodyOf(p, body)
  {
    hide Writes, BodyText;
    if p.quoted {
      QuotedBody(p.now.env, p.now.status, p.lines);
    } else {
      var outs := ExpandedBody(p.now.env, p.now.status, p.lines);
      assert AreWrittenLines(p, outs);
    }
  }

  /** A here-document of a run: where it was read, and its delimiter's text. */
  ghost predicate IsBodyAt(bodies: seq<string>, pieces: seq<Piece>, delims: seq<nat>, texts: seq<string>, k: nat) {
    && k < |bodies| && k < |pieces| && k < |delims| && 0 < delims[k] <= |texts|
    && var text := texts[delims[k] - 1];
    && IsBodyOf(pieces[k], bodies[k]) && Unquotes(text, pieces[k].delim)
    && (pieces[k].quoted <==> HoldsQuotes(text))
  }

  /**
   * Every body that a run has read is what its lines write: as they are if the delimiter has quotes
   * that enclose something, and else with the values that the parameters had when it was read.
   */
  lemma RunWritesBodies(c: Ctx, parse: ParserState, input: Input, outcomes: nat -> nat -> Status, before: Status)
    requires Result(c, parse, input, outcomes, before)
    ensures |BodyPieces(c.pieces)| == |c.bodies|
    ensures forall k: nat :: k < |c.bodies| ==> IsBodyAt(c.bodies, BodyPieces(c.pieces), c.delims, c.texts, k)
  {
    hide TokensOk, BodyText, ExecutedOk, HoldsQuotes, QuoteRemove, Unquotes, IsBodyOf, BodyPieces, SoFar, ReadToEnd,
      Accepted, NoLineForBody;
    var bs := BodyPieces(c.pieces);
    forall k: nat | k < |c.bodies| ensures IsBodyAt(c.bodies, bs, c.delims, c.texts, k) {
      assert BodyAt(c.bodies, bs, c.delims, c.lexed, c.texts, k);
      BodyIsWritten(bs[k], c.bodies[k]);
      RemovedIsUnquoted(c.texts[c.delims[k] - 1]);
      QuotedAsWritten(c.tokens, c.strings, c.lexed, c.texts, c.delims, c.delims[k]);
    }
  }
}
