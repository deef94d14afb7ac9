/**
 * The parts of net/http the CORS engine touches: header-name
 * canonicalisation, the request's header view, and the response's header
 * map with its two writes (Add appends a value, Set replaces all values
 * with one), plus the response status.
 */
module Http {
  import opened Wrappers
  import opened Text

  /** Whether position i of s starts a hyphen-separated segment. */
  predicate SegmentStart(s: string, i: int)
    requires 0 <= i < |s|
  {
    i == 0 || s[i - 1] == '-'
  }

  function CanonicalFrom(s: string, upper: bool): (r: string)
    ensures |r| == |s|
  {
    if s == [] then []
    else [if upper then UpperChar(s[0]) else LowerChar(s[0])] + CanonicalFrom(s[1..], s[0] == '-')
  }

  lemma {:induction false} CanonicalFromAt(s: string, upper: bool, i: nat)
    requires i < |s|
    ensures CanonicalFrom(s, upper)[i]
         == if (i == 0 && upper) || (i > 0 && s[i - 1] == '-') then UpperChar(s[i]) else LowerChar(s[i])
  {
    if i > 0 {
      CanonicalFromAt(s[1..], s[0] == '-', i - 1);
    }
  }

  /**
   * http.CanonicalHeaderKey on ASCII: the first letter and every letter
   * right after a '-' are upper-cased, every other letter lower-cased
   * (CanonicalAt states it position by position).
   */
  function CanonicalHeaderKey(s: string): (r: string)
    ensures |r| == |s|
  {
    CanonicalFrom(s, true)
  }

  lemma CanonicalAt(s: string, i: nat)
    requires i < |s|
    ensures CanonicalHeaderKey(s)[i] == if SegmentStart(s, i) then UpperChar(s[i]) else LowerChar(s[i])
  {
    CanonicalFromAt(s, true, i);
  }

  /** Canonicalising a concatenation: the second part starts a segment when the first is empty or ends in '-'. */
  lemma {:induction false} CanonicalFromConcat(a: string, b: string, upper: bool)
    ensures CanonicalFrom(a + b, upper)
         == CanonicalFrom(a, upper) + CanonicalFrom(b, if a == [] then upper else a[|a| - 1] == '-')
    decreases |a|
  {
    if a == [] {
      assert a + b == b;
    } else {
      assert (a + b)[1..] == a[1..] + b;
      CanonicalFromConcat(a[1..], b, a[0] == '-');
    }
  }

  /** A header name already in canonical form. */
  predicate IsCanonical(s: string) {
    CanonicalHeaderKey(s) == s
  }

  /** The canonical form of a name, given position by position. */
  lemma CanonicalIs(s: string, t: string)
    requires |t| == |s|
    requires forall i :: 0 <= i < |s| ==> t[i] == if SegmentStart(s, i) then UpperChar(s[i]) else LowerChar(s[i])
    ensures CanonicalHeaderKey(s) == t
  {
    forall i | 0 <= i < |s|
      ensures CanonicalHeaderKey(s)[i] == t[i]
    {
      CanonicalAt(s, i);
    }
  }

  /** A name is canonical exactly when every segment start is not lower-case and every other letter is not upper-case. */
  lemma CanonicalShape(s: string)
    ensures IsCanonical(s) <==> forall i :: 0 <= i < |s| ==> s[i] == if SegmentStart(s, i) then UpperChar(s[i]) else LowerChar(s[i])
  {
    forall i | 0 <= i < |s| {
      CanonicalAt(s, i);
    }
  }

  /** Canonicalising twice is canonicalising once. */
  lemma CanonicalIdempotent(s: string)
    ensures IsCanonical(CanonicalHeaderKey(s))
  {
    var c := CanonicalHeaderKey(s);
    forall i | 0 <= i < |s|
      ensures CanonicalHeaderKey(c)[i] == c[i]
    {
      CanonicalAt(s, i);
      CanonicalAt(c, i);
      if i > 0 {
        CanonicalAt(s, i - 1);
      }
    }
  }

  /** Canonicalisation only changes the case of letters. */
  lemma CanonicalKeepsNonLetters(s: string, ch: char)
    requires !IsUpper(ch) && !IsLower(ch)
    ensures ch in CanonicalHeaderKey(s) <==> ch in s
  {
    var c := CanonicalHeaderKey(s);
    if ch in s {
      var i :| 0 <= i < |s| && s[i] == ch;
      CanonicalAt(s, i);
      assert c[i] == ch;
    }
    if ch in c {
      var i :| 0 <= i < |s| && c[i] == ch;
      CanonicalAt(s, i);
      assert s[i] == ch;
    }
  }

  /** Canonicalisation keeps a string free of white space at its ends. */
  lemma CanonicalKeepsTrimmed(s: string)
    requires Trimmed(s)
    ensures Trimmed(CanonicalHeaderKey(s))
  {
    if s != [] {
      CanonicalAt(s, 0);
      CanonicalAt(s, |s| - 1);
    }
  }

  /** A header map: each name holds an ordered list of values. */
  type HeaderMap = map<string, seq<string>>

  /** The values stored under a name, empty when it is absent (Header.Values). */
  function Values(m: HeaderMap, name: string): seq<string> {
    if name in m then m[name] else []
  }

  /** Two header maps agree on one name: present in both with equal values, or absent from both. */
  predicate SameEntry(m: HeaderMap, m': HeaderMap, name: string) {
    (name in m <==> name in m') && (name in m ==> m[name] == m'[name])
  }

  /** One write to a response header map. */
  datatype Write =
    | Append(name: string, value: string)   // Header.Add
    | Replace(name: string, value: string)  // Header.Set

  function Step(m: HeaderMap, w: Write): (r: HeaderMap)
    ensures forall n :: n != w.name ==> SameEntry(r, m, n)
    ensures w.name in r
    ensures r[w.name] == if w.Append? then Values(m, w.name) + [w.value] else [w.value]
  {
    match w
    case Append(n, v) => m[n := Values(m, n) + [v]]
    case Replace(n, v) => m[n := [v]]
  }

  /** The header map after a list of writes, performed first to last. */
  function Apply(m: HeaderMap, ws: seq<Write>): HeaderMap
    decreases |ws|
  {
    if ws == [] then m else Apply(Step(m, ws[0]), ws[1..])
  }

  lemma {:induction false} ApplyConcat(m: HeaderMap, a: seq<Write>, b: seq<Write>)
    ensures Apply(m, a + b) == Apply(Apply(m, a), b)
    decreases |a|
  {
    if a != [] {
      assert (a + b)[1..] == a[1..] + b;
      ApplyConcat(Step(m, a[0]), a[1..], b);
    } else {
      assert a + b == b;
    }
  }

  /** Names no write touches keep their entry. */
  lemma {:induction false} ApplyUntouched(m: HeaderMap, ws: seq<Write>, name: string)
    requires Untouched(ws, name)
    ensures SameEntry(Apply(m, ws), m, name)
    decreases |ws|
  {
    if ws != [] {
      ApplyUntouched(Step(m, ws[0]), ws[1..], name);
    }
  }

  /** The values a list of writes appends, in order. */
  function AppendedValues(ws: seq<Write>, name: string): seq<string> {
    if ws == [] then []
    else (if ws[0].Append? && ws[0].name == name then [ws[0].value] else []) + AppendedValues(ws[1..], name)
  }

  /** A name written only by appends accumulates exactly the appended values, in order. */
  lemma {:induction false} ApplyAppends(m: HeaderMap, ws: seq<Write>, name: string)
    requires forall i :: 0 <= i < |ws| && ws[i].name == name ==> ws[i].Append?
    ensures Values(Apply(m, ws), name) == Values(m, name) + AppendedValues(ws, name)
    decreases |ws|
  {
    if ws != [] {
      ApplyAppends(Step(m, ws[0]), ws[1..], name);
    }
  }

  /** One more write at the end is one more step. */
  lemma ApplySnoc(m: HeaderMap, ws: seq<Write>, w: Write)
    ensures Apply(m, ws + [w]) == Step(Apply(m, ws), w)
  {
    ApplyConcat(m, ws, [w]);
  }

  /** An optional write at the end is one more step when its condition holds and none otherwise. */
  lemma ApplySnocWhen(m: HeaderMap, ws: seq<Write>, c: bool, w: Write)
    ensures Apply(m, ws + When(c, w)) == if c then Step(Apply(m, ws), w) else Apply(m, ws)
  {
    if c {
      ApplySnoc(m, ws, w);
    } else {
      assert ws + When(c, w) == ws;
    }
  }

  /** Two writes, one after the other. */
  lemma ApplyPair(m: HeaderMap, a: Write, b: Write)
    ensures Apply(m, [a, b]) == Step(Step(m, a), b)
  {
    assert [a, b][1..] == [b];
    assert Apply(m, [a, b]) == Apply(Step(m, a), [b]);
    assert [b][1..] == [];
    assert Apply(Step(m, a), [b]) == Apply(Step(Step(m, a), b), []);
  }

  /** Three writes, one after the other. */
  lemma ApplyThree(m: HeaderMap, ws: seq<Write>)
    requires |ws| == 3
    ensures Apply(m, ws) == Step(Step(Step(m, ws[0]), ws[1]), ws[2])
  {
    assert ws == [ws[0]] + [ws[1]] + [ws[2]];
    ApplyConcat(m, [ws[0]] + [ws[1]], [ws[2]]);
    ApplyConcat(m, [ws[0]], [ws[1]]);
  }

  /** A list of writes none of which is to the name. */
  predicate Untouched(ws: seq<Write>, name: string) {
    forall i :: 0 <= i < |ws| ==> ws[i].name != name
  }

  lemma UntouchedConcat(a: seq<Write>, b: seq<Write>, name: string)
    requires Untouched(a, name) && Untouched(b, name)
    ensures Untouched(a + b, name)
  {
    assert forall i :: |a| <= i < |a + b| ==> (a + b)[i] == b[i - |a|];
  }

  /** After a replace, and with no later write to that name, the name holds that one value. */
  lemma {:induction false} ApplyReplaceAt(m: HeaderMap, ws: seq<Write>, k: nat)
    requires k < |ws| && ws[k].Replace? && Untouched(ws[k + 1..], ws[k].name)
    ensures ws[k].name in Apply(m, ws) && Apply(m, ws)[ws[k].name] == [ws[k].value]
    decreases |ws|
  {
    if k == 0 {
      ApplyUntouched(Step(m, ws[0]), ws[1..], ws[0].name);
    } else {
      assert ws[1..][k..] == ws[k + 1..];
      ApplyReplaceAt(Step(m, ws[0]), ws[1..], k - 1);
    }
  }

  /** One write when the condition holds, none otherwise. */
  function When(c: bool, w: Write): seq<Write> {
    if c then [w] else []
  }

  /** One write when the condition holds, none otherwise, on a header map. */
  function StepWhen(m: HeaderMap, c: bool, w: Write): HeaderMap {
    if c then Step(m, w) else m
  }

  lemma ApplyWhen(m: HeaderMap, c: bool, w: Write)
    ensures Apply(m, When(c, w)) == StepWhen(m, c, w)
  {
  }

  /** The response header map (http.Header) the engine writes into. */
  class Header {
    var entries: HeaderMap

    constructor ()
      ensures entries == map[]
    {
      entries := map[];
    }

    /** Header.Add: append one value under a name. */
    method Add(name: string, value: string)
      modifies this
      ensures entries == Step(old(entries), Append(name, value))
    {
      entries := entries[name := Values(entries, name) + [value]];
    }

    /** Header.Set: replace every value under a name by one value. */
    method Set(name: string, value: string)
      modifies this
      ensures entries == Step(old(entries), Replace(name, value))
    {
      entries := entries[name := [value]];
    }
  }

  /** The response the engine writes to: its header map and the status code, once written. */
  class Response {
    const header: Header
    var status: Option<int>

    constructor ()
      ensures fresh(header) && header.entries == map[] && status == None
    {
      header := new Header();
      status := None;
    }

    /** ResponseWriter.WriteHeader. */
    method WriteHeader(code: int)
      modifies this
      ensures status == Some(code)
    {
      status := Some(code);
    }
  }

  /** The view of an inbound request the engine reads: its method and its header map. */
  datatype Request = Request(httpMethod: string, header: HeaderMap) {
    /** Header.Get: the first value under a name, or the empty string when the name has none. */
    function Get(name: string): (r: string)
      ensures name !in header || header[name] == [] ==> r == ""
      ensures name in header && header[name] != [] ==> r == header[name][0]
    {
      if name in header && |header[name]| > 0 then header[name][0] else ""
    }
  }
}
