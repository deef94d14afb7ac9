/**
 * The test table of the helpers, stated against the model: the wildcard
 * matcher, convert with a lower-casing function, and parseHeaderList on a
 * mixed-case list and on blank values.
 */
module UtilsExamples {
  import opened Text
  import opened Http
  import opened Utils

  /** TestWildcard: "foo*bar" matches with an empty and a non-empty middle, and not without the suffix. */
  lemma WildcardCases()
    ensures Wildcard("foo", "bar").Match("foobar")
    ensures Wildcard("foo", "bar").Match("foobazbar")
    ensures !Wildcard("foo", "bar").Match("foobaz")
  {
    var w := Wildcard("foo", "bar");
    MatchAnyMiddle(w, "");
    assert w.prefix + "" + w.suffix == "foobar";
    MatchAnyMiddle(w, "baz");
    assert w.prefix + "baz" + w.suffix == "foobazbar";
    assert "foobaz"[3..][2] != w.suffix[2];
  }

  /** TestConvert: lower-casing each element of ["A", "b", "C"]. */
  lemma ConvertCase()
    ensures Convert(["A", "b", "C"], ToLower) == ["a", "b", "c"]
  {
    assert ToLower("A") == "a";
    assert ToLower("b") == "b";
    assert ToLower("C") == "c";
  }

  /** TestParseHeaderListEmpty: the empty value has no names. */
  lemma ParseEmpty()
    ensures ParseHeaderList("") == []
  {
    ParseBlank("");
  }

  /** TestParseHeaderListEmpty: a lone comma and a space give two blank pieces and no names. */
  lemma ParseLoneComma()
    ensures ParseHeaderList(", ") == []
  {
    assert ", " == "" + [','] + " ";
    SplitAfter("", ',', " ");
    ParseBlank(" ");
    ParsePiecesCons("", Split(" ", ','));
  }

  /** The four names of TestParseHeaderList, as sent and as expected. */
  const Sent: seq<string> := ["header", "second-header", "THIRD-HEADER", "Numb3r3d-H34d3r"]
  const Expected: seq<string> := ["Header", "Second-Header", "Third-Header", "Numb3r3d-H34d3r"]

  lemma SentItems()
    ensures forall k :: 0 <= k < |Sent| ==> ListItem(Sent[k])
  {
  }

  /** The value of TestParseHeaderList, "header, second-header, THIRD-HEADER, Numb3r3d-H34d3r", spelled by its pieces. */
  const SentText := Sent[0] + ", " + Sent[1] + ", " + Sent[2] + ", " + Sent[3]

  lemma SentJoined()
    ensures Join(Sent, ", ") == SentText
  {
    assert Sent[2..][1..] == Sent[3..] && Sent[1..][1..] == Sent[2..] && Sent[1..][1..] == Sent[2..];
    assert Join(Sent[3..], ", ") == Sent[3];
    assert Join(Sent[2..], ", ") == Sent[2] + ", " + Sent[3];
    assert Join(Sent[1..], ", ") == Sent[1] + ", " + Sent[2] + ", " + Sent[3];
    assert Join(Sent, ", ") == Sent[0] + ", " + Sent[1] + ", " + Sent[2] + ", " + Sent[3];
  }

  lemma FirstCanonical()
    ensures CanonicalHeaderKey(Sent[0]) == Expected[0]
  {
    CanonicalIs(Sent[0], Expected[0]);
  }

  lemma SecondCanonical()
    ensures CanonicalHeaderKey(Sent[1]) == Expected[1]
  {
    CanonicalIs(Sent[1], Expected[1]);
  }

  lemma ThirdCanonical()
    ensures CanonicalHeaderKey(Sent[2]) == Expected[2]
  {
    CanonicalIs(Sent[2], Expected[2]);
  }

  lemma FourthCanonical()
    ensures CanonicalHeaderKey(Sent[3]) == Expected[3]
  {
    CanonicalIs(Sent[3], Expected[3]);
  }

  /** A list joined with ", " parses to the canonical forms of its items. */
  lemma ParseJoined(ts: seq<string>, s: string)
    requires forall k :: 0 <= k < |ts| ==> ListItem(ts[k])
    requires Join(ts, ", ") == s
    ensures ParseHeaderList(s) == Convert(ts, CanonicalHeaderKey)
  {
    ParseJoinAfter("", ts);
    assert "" + Join(ts, ", ") == s;
  }

  lemma SentConverted()
    ensures Convert(Sent, CanonicalHeaderKey) == Expected
  {
    FirstCanonical();
    SecondCanonical();
    ThirdCanonical();
    FourthCanonical();
  }

  /** TestParseHeaderList: names in any case come back canonical, in order. */
  lemma ParseFour()
    ensures ParseHeaderList(SentText) == Expected
  {
    SentItems();
    SentJoined();
    ParseJoined(Sent, SentText);
    SentConverted();
  }
}
