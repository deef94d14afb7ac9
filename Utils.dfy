/**
 * The helpers of utils.go as their call sites use them: the two-anchor
 * wildcard origin pattern, convert (apply a string function to every
 * element) and parseHeaderList (the Access-Control-Request-Headers value
 * as a list of canonical header names).
 */
module Utils {
  import opened Text
  import opened Http

  /** An origin pattern with one '*': the text before it and the text after it. */
  datatype Wildcard = Wildcard(prefix: string, suffix: string) {
    /**
     * wildcard.match: long enough for both anchors, starts with the prefix,
     * ends with the suffix; so a match is the prefix, a middle and the suffix.
     */
    predicate Match(s: string): (b: bool)
      ensures b <==> |s| >= |prefix| + |suffix| && s == prefix + s[|prefix|..|s| - |suffix|] + suffix
    {
      && |s| >= |prefix| + |suffix|
      && s[..|prefix|] == prefix
      && s[|s| - |suffix|..] == suffix
      && assert s == s[..|prefix|] + s[|prefix|..|s| - |suffix|] + s[|s| - |suffix|..];
         true
    }
  }

  /** Whatever stands in for the '*', the pattern matches. */
  lemma MatchAnyMiddle(w: Wildcard, middle: string)
    ensures w.Match(w.prefix + middle + w.suffix)
  {
    var s := w.prefix + middle + w.suffix;
    assert s[..|w.prefix|] == w.prefix;
    assert s[|s| - |w.suffix|..] == w.suffix;
  }

  /**
   * The wildcard New builds from an origin holding a '*': the origin is
   * prefix, '*', suffix, and the prefix holds no '*' (the split is at the
   * first one; later ones stay in the suffix as literal text).
   */
  function SplitWildcard(origin: string): (w: Wildcard)
    requires '*' in origin
    ensures origin == w.prefix + "*" + w.suffix
    ensures '*' !in w.prefix
  {
    var i := IndexByte(origin, '*');
    assert origin == origin[..i] + "*" + origin[i + 1..];
    Wildcard(origin[..i], origin[i + 1..])
  }

  /** An origin cut at its first '*': the split of New is the unique one whose prefix holds no '*'. */
  lemma SplitWildcardAt(prefix: string, suffix: string)
    requires '*' !in prefix
    ensures SplitWildcard(prefix + "*" + suffix) == Wildcard(prefix, suffix)
  {
    var origin := prefix + "*" + suffix;
    assert origin[|prefix|] == '*' && origin[..|prefix|] == prefix;
    assert IndexByte(origin, '*') == |prefix|;
    assert origin[|prefix| + 1..] == suffix;
  }

  /** convert: the list with the function applied to each element, in order. */
  function Convert(s: seq<string>, f: string -> string): (r: seq<string>)
    ensures |r| == |s|
    ensures forall i :: 0 <= i < |s| ==> r[i] == f(s[i])
  {
    if s == [] then [] else [f(s[0])] + Convert(s[1..], f)
  }

  /** A converted list is the image of its head followed by the converted tail. */
  lemma ConvertCons(s: seq<string>, f: string -> string)
    requires s != []
    ensures Convert(s, f) == [f(s[0])] + Convert(s[1..], f)
  {
  }

  /** An element of a converted list is the image of some element of the original. */
  lemma ConvertMembers(s: seq<string>, f: string -> string, x: string)
    ensures x in Convert(s, f) <==> exists j :: 0 <= j < |s| && x == f(s[j])
  {
    if x in Convert(s, f) {
      var i :| 0 <= i < |s| && Convert(s, f)[i] == x;
      assert x == f(s[i]);
    }
  }

  /** A piece of a list that survives parsing whole: non-empty, comma-free and trimmed. */
  predicate ListItem(t: string) {
    t != "" && ',' !in t && Trimmed(t)
  }

  /** What parseHeaderList can return: list items that are canonical header names. */
  predicate HeaderToken(t: string) {
    ListItem(t) && IsCanonical(t)
  }

  /** The canonical name a comma-separated piece contributes, if it is not blank. */
  function PieceToken(piece: string): string {
    CanonicalHeaderKey(TrimSpace(piece))
  }

  /** The pieces in order, each trimmed and canonicalised, blank ones dropped. */
  function ParsePieces(pieces: seq<string>): seq<string> {
    if pieces == [] then []
    else
      var t := TrimSpace(pieces[0]);
      (if t == "" then [] else [CanonicalHeaderKey(t)]) + ParsePieces(pieces[1..])
  }

  /** A name is in the parse exactly when some non-blank piece gives it; there are no more names than pieces. */
  lemma {:induction false} ParsePiecesMembers(pieces: seq<string>)
    ensures |ParsePieces(pieces)| <= |pieces|
    ensures forall t :: t in ParsePieces(pieces) <==>
              exists i :: 0 <= i < |pieces| && TrimSpace(pieces[i]) != "" && t == PieceToken(pieces[i])
  {
    if pieces != [] {
      var rest := pieces[1..];
      ParsePiecesMembers(rest);
      var t := TrimSpace(pieces[0]);
      var head := if t == "" then [] else [CanonicalHeaderKey(t)];
      assert ParsePieces(pieces) == head + ParsePieces(rest);
      forall x
        ensures x in ParsePieces(pieces) <==>
                exists i :: 0 <= i < |pieces| && TrimSpace(pieces[i]) != "" && x == PieceToken(pieces[i])
      {
        if x in ParsePieces(rest) {
          var j :| 0 <= j < |rest| && TrimSpace(rest[j]) != "" && x == PieceToken(rest[j]);
          assert pieces[j + 1] == rest[j];
        }
        if exists i :: 0 <= i < |pieces| && TrimSpace(pieces[i]) != "" && x == PieceToken(pieces[i]) {
          var i :| 0 <= i < |pieces| && TrimSpace(pieces[i]) != "" && x == PieceToken(pieces[i]);
          if i > 0 {
            assert rest[i - 1] == pieces[i];
          }
        }
      }
    }
  }

  /**
   * parseHeaderList: split on commas, trim, drop blank pieces, canonicalise.
   * Every name it returns is a header token, and a name is returned exactly
   * when some non-blank piece canonicalises to it.
   */
  function ParseHeaderList(s: string): (r: seq<string>)
    ensures forall k :: 0 <= k < |r| ==> HeaderToken(r[k])
    ensures |r| <= |Split(s, ',')|
    ensures forall t :: t in r <==>
              exists i :: 0 <= i < |Split(s, ',')| && TrimSpace(Split(s, ',')[i]) != "" && t == PieceToken(Split(s, ',')[i])
  {
    ParsePiecesTokens(Split(s, ','));
    ParsePiecesMembers(Split(s, ','));
    ParsePieces(Split(s, ','))
  }

  /** Every name parsed from comma-free pieces is a header token. */
  lemma {:induction false} ParsePiecesTokens(pieces: seq<string>)
    requires forall i :: 0 <= i < |pieces| ==> ',' !in pieces[i]
    ensures forall k :: 0 <= k < |ParsePieces(pieces)| ==> HeaderToken(ParsePieces(pieces)[k])
    decreases |pieces|
  {
    if pieces != [] {
      ParsePiecesTokens(pieces[1..]);
      var t := TrimSpace(pieces[0]);
      if t != "" {
        assert ',' !in t;
        CanonicalKeepsNonLetters(t, ',');
        CanonicalKeepsTrimmed(t);
        CanonicalIdempotent(t);
      }
    }
  }

  lemma ParsePiecesCons(piece: string, rest: seq<string>)
    ensures ParsePieces([piece] + rest)
         == (if TrimSpace(piece) == "" then [] else [PieceToken(piece)]) + ParsePieces(rest)
  {
    assert ([piece] + rest)[1..] == rest;
  }

  lemma SpacesHaveNoComma(lead: string)
    requires forall k :: 0 <= k < |lead| ==> IsSpace(lead[k])
    ensures ',' !in lead
  {
    assert forall k :: 0 <= k < |lead| ==> lead[k] != ',';
  }

  /** White space trims to nothing. */
  lemma BlankTrims(lead: string)
    requires forall k :: 0 <= k < |lead| ==> IsSpace(lead[k])
    ensures TrimSpace(lead) == ""
  {
    TrimSpaceLead(lead, "");
    assert lead + "" == lead;
  }

  /** A single piece that trims to nothing gives no names. */
  lemma ParseSingleBlank(piece: string)
    requires TrimSpace(piece) == ""
    ensures ParsePieces([piece]) == []
  {
    ParsePiecesCons(piece, []);
    assert [piece] + [] == [piece];
  }

  /** A blank value parses to no names. */
  lemma ParseBlank(lead: string)
    requires forall k :: 0 <= k < |lead| ==> IsSpace(lead[k])
    ensures ParsePieces(Split(lead, ',')) == []
  {
    SpacesHaveNoComma(lead);
    SplitWhole(lead, ',');
    BlankTrims(lead);
    ParseSingleBlank(lead);
  }

  /** An item after white space is the one piece of its value. */
  lemma LeadItemPiece(lead: string, t: string)
    requires forall k :: 0 <= k < |lead| ==> IsSpace(lead[k])
    requires ListItem(t)
    ensures ',' !in lead + t
    ensures TrimSpace(lead + t) != "" && PieceToken(lead + t) == CanonicalHeaderKey(t)
  {
    SpacesHaveNoComma(lead);
    TrimSpaceLead(lead, t);
  }

  /** One item after white space parses to its canonical form. */
  lemma ParseLeadItem(lead: string, t: string)
    requires forall k :: 0 <= k < |lead| ==> IsSpace(lead[k])
    requires ListItem(t)
    ensures ParsePieces(Split(lead + t, ',')) == [CanonicalHeaderKey(t)]
  {
    LeadItemPiece(lead, t);
    SplitWhole(lead + t, ',');
    ParsePiecesCons(lead + t, []);
  }

  /** The first item of a longer list, cut off at its comma. */
  lemma SplitJoinHead(lead: string, ts: seq<string>)
    requires |ts| > 1 && ',' !in lead + ts[0]
    ensures Split(lead + Join(ts, ", "), ',') == [lead + ts[0]] + Split(" " + Join(ts[1..], ", "), ',')
  {
    var u := " " + Join(ts[1..], ", ");
    assert lead + Join(ts, ", ") == (lead + ts[0]) + [','] + u;
    SplitAfter(lead + ts[0], ',', u);
  }

  /** Items joined with ", " after leading white space parse to their canonical forms, in order. */
  lemma {:induction false} ParseJoinAfter(lead: string, ts: seq<string>)
    requires forall k :: 0 <= k < |lead| ==> IsSpace(lead[k])
    requires forall k :: 0 <= k < |ts| ==> ListItem(ts[k])
    ensures ParsePieces(Split(lead + Join(ts, ", "), ',')) == Convert(ts, CanonicalHeaderKey)
    decreases |ts|
  {
    if ts == [] {
      assert lead + Join(ts, ", ") == lead;
      ParseBlank(lead);
    } else if |ts| == 1 {
      assert lead + Join(ts, ", ") == lead + ts[0];
      ParseLeadItem(lead, ts[0]);
    } else {
      LeadItemPiece(lead, ts[0]);
      SplitJoinHead(lead, ts);
      var rest := Split(" " + Join(ts[1..], ", "), ',');
      ParsePiecesCons(lead + ts[0], rest);
      ParseJoinAfter(" ", ts[1..]);
      assert Convert(ts, CanonicalHeaderKey) == [CanonicalHeaderKey(ts[0])] + Convert(ts[1..], CanonicalHeaderKey);
    }
  }

  /** Canonicalising names that are already canonical changes nothing. */
  lemma ConvertCanonicalNames(ts: seq<string>)
    requires forall k :: 0 <= k < |ts| ==> IsCanonical(ts[k])
    ensures Convert(ts, CanonicalHeaderKey) == ts
  {
  }

  /** Joining header tokens with ", " and parsing the result gives the tokens back. */
  lemma ParseJoin(ts: seq<string>)
    requires forall k :: 0 <= k < |ts| ==> HeaderToken(ts[k])
    ensures ParseHeaderList(Join(ts, ", ")) == ts
  {
    var j := Join(ts, ", ");
    assert "" + j == j;
    ParseJoinAfter("", ts);
    assert ParseHeaderList(j) == ParsePieces(Split(j, ','));
    ConvertCanonicalNames(ts);
  }

  /** Parsing the joined result of a parse changes nothing: the echoed list reads as requested. */
  lemma ParseHeaderListStable(s: string)
    ensures ParseHeaderList(Join(ParseHeaderList(s), ", ")) == ParseHeaderList(s)
  {
    ParseJoin(ParseHeaderList(s));
  }
}
