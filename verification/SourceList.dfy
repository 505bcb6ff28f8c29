/** Source markers in an answer, and the source list added below an answer that has none. */
module SourceList {
  import opened Citations
  import opened Text

  function RStrip(s: string): (stripped: string)
    ensures stripped <= s
    ensures stripped == [] || !IsSpace(stripped[|stripped| - 1])
  {
    if s == [] || !IsSpace(s[|s| - 1]) then s else RStrip(s[..|s| - 1])
  }

  /** An identity as its pattern admits it: S and one to six digits. */
  predicate ValidId(id: string) {
    2 <= |id| <= 7 && id[0] == 'S' && AllDigits(id[1..])
  }

  // ---- Title escaping ----

  const ESCAPABLE: string := "\\`*_[]<>#"

  /** One `str.replace` of a character by a backslash and itself. */
  function Replaced(s: string, c: char): string {
    if s == [] then []
    else if s[0] == c then ['\\', c] + Replaced(s[1..], c)
    else [s[0]] + Replaced(s[1..], c)
  }

  /** Every special character preceded by one backslash, in a single pass. */
  function Escaped(s: string, specials: string): string {
    if s == [] then []
    else if s[0] in specials then ['\\', s[0]] + Escaped(s[1..], specials)
    else [s[0]] + Escaped(s[1..], specials)
  }

  function Unescaped(s: string): string {
    if s == [] then []
    else if s[0] == '\\' && |s| > 1 then [s[1]] + Unescaped(s[2..])
    else [s[0]] + Unescaped(s[1..])
  }

  lemma {:induction false} EscapeFirst(s: string)
    ensures Replaced(s, '\\') == Escaped(s, ['\\'])
  {
    if s != [] {
      EscapeFirst(s[1..]);
    }
  }

  lemma {:induction false} EscapeOneMore(s: string, specials: string, c: char)
    requires '\\' in specials && c !in specials
    ensures Replaced(Escaped(s, specials), c) == Escaped(s, specials + [c])
  {
    if s != [] {
      var rest := Escaped(s[1..], specials);
      EscapeOneMore(s[1..], specials, c);
      if s[0] in specials {
        assert (['\\', s[0]] + rest)[1..] == [s[0]] + rest;
        assert ([s[0]] + rest)[1..] == rest;
      } else {
        assert ([s[0]] + rest)[1..] == rest;
      }
    }
  }

  /** Escaping loses nothing, so different titles stay different. */
  lemma {:induction false} UnescapeUndoesEscape(s: string, specials: string)
    requires '\\' in specials
    ensures Unescaped(Escaped(s, specials)) == s
  {
    if s != [] {
      var rest := Escaped(s[1..], specials);
      UnescapeUndoesEscape(s[1..], specials);
      assert (['\\', s[0]] + rest)[2..] == rest;
      assert ([s[0]] + rest)[1..] == rest;
    }
  }

  /** The characters are replaced one kind after another; that equals the single pass. */
  method EscapeSourceTitle(value: string) returns (escaped: string)
    ensures escaped == Escaped(value, ESCAPABLE)
  {
    var characters := "`*_[]<>#";
    escaped := Replaced(value, '\\');
    EscapeFirst(value);
    assert ['\\'] + characters[..0] == ['\\'];
    var i := 0;
    while i < |characters|
      invariant i <= |characters|
      invariant escaped == Escaped(value, ['\\'] + characters[..i])
    {
      EscapeOneMore(value, ['\\'] + characters[..i], characters[i]);
      assert ['\\'] + characters[..i] + [characters[i]] == ['\\'] + characters[..i + 1];
      escaped := Replaced(escaped, characters[i]);
      i := i + 1;
    }
    assert ['\\'] + characters[..i] == ESCAPABLE;
  }

  // ---- Markers ----

  function DigitRun(s: string): (n: nat)
    ensures n <= |s|
  {
    if s == [] || !IsDigit(s[0]) then 0 else 1 + DigitRun(s[1..])
  }

  /** The length of the marker `[[S12]]` that a text starts with, or 0. */
  function MarkerLength(s: string): (n: nat)
    ensures n <= |s|
    ensures n > 0 ==> n >= 6
  {
    if !("[[S" <= s) then 0
    else
      var digits := DigitRun(s[3..]);
      if digits > 0 && "]]" <= s[3 + digits..] then digits + 5 else 0
  }

  function MarkerAtStart(s: string): seq<string> {
    if MarkerLength(s) > 0 then [s[2..MarkerLength(s) - 2]] else []
  }

  function Advance(s: string): (n: nat)
    requires s != []
    ensures 1 <= n <= |s|
  {
    if MarkerLength(s) > 0 then MarkerLength(s) else 1
  }

  /** The identities of all markers, found from left to right without overlap. */
  function Markers(s: string): seq<string> {
    if s == [] then [] else MarkerAtStart(s) + Markers(s[Advance(s)..])
  }

  /** A character that no marker contains. */
  predicate Separates(c: char) {
    c != '[' && c != ']' && c != 'S' && !IsDigit(c)
  }

  lemma {:induction false} DigitRunStops(a: string, c: char, b: string)
    requires !IsDigit(c)
    ensures DigitRun(a + [c] + b) == DigitRun(a)
  {
    if a != [] {
      DigitRunStops(a[1..], c, b);
      assert (a + [c] + b)[1..] == a[1..] + [c] + b;
    }
  }

  lemma MarkerStops(a: string, c: char, b: string)
    requires Separates(c)
    ensures MarkerLength(a + [c] + b) == MarkerLength(a)
    ensures MarkerAtStart(a + [c] + b) == MarkerAtStart(a)
  {
    var all := a + [c] + b;
    assert forall i :: 0 <= i < |a| ==> all[i] == a[i];
    assert all[|a|] == c;
    if |a| >= 3 && "[[S" <= a {
      var digits := DigitRun(a[3..]);
      DigitRunStops(a[3..], c, b);
      assert all[3..] == a[3..] + [c] + b;
    }
    assert MarkerLength(a) > 0 ==> all[2..MarkerLength(a) - 2] == a[2..MarkerLength(a) - 2];
  }

  lemma Reassociate(a: seq<string>, b: seq<string>, c: seq<string>)
    ensures a + (b + c) == (a + b) + c
  {
  }

  lemma AdvanceStops(a: string, c: char, b: string)
    requires Separates(c) && a != []
    ensures Advance(a + [c] + b) == Advance(a)
    ensures (a + [c] + b)[Advance(a)..] == a[Advance(a)..] + [c] + b
  {
    MarkerStops(a, c, b);
  }

  lemma MarkersUnfold(s: string)
    requires s != []
    ensures Markers(s) == MarkerAtStart(s) + Markers(s[Advance(s)..])
  {
  }

  /** No marker reaches across a separating character. */
  lemma {:induction false} MarkersSplit(a: string, c: char, b: string)
    requires Separates(c)
    ensures Markers(a + [c] + b) == Markers(a) + Markers(b)
    decreases |a|
  {
    if a == [] {
      MarkerStops(a, c, b);
      assert (a + [c] + b)[1..] == b;
      MarkersUnfold(a + [c] + b);
    } else {
      var rest := a[Advance(a)..];
      MarkersSplit(rest, c, b);
      MarkersSplitStep(a, c, b, Markers(rest), Markers(b));
    }
  }

  lemma MarkersSplitStep(a: string, c: char, b: string, inRest: seq<string>, inB: seq<string>)
    requires Separates(c) && a != []
    requires Markers(a[Advance(a)..] + [c] + b) == inRest + inB && Markers(a[Advance(a)..]) == inRest
    ensures Markers(a + [c] + b) == Markers(a) + inB
  {
    MarkersUnfold(a + [c] + b);
    MarkersUnfold(a);
    MarkerStops(a, c, b);
    AdvanceStops(a, c, b);
    Reassociate(MarkerAtStart(a), inRest, inB);
  }

  lemma TrailingSeparator(front: string, c: char)
    requires Separates(c)
    ensures Markers(front + [c]) == Markers(front)
  {
    MarkersSplit(front, c, []);
    assert front + [c] + [] == front + [c];
  }

  lemma DropSeparator(s: string)
    requires s != [] && Separates(s[|s| - 1])
    ensures Markers(s) == Markers(s[..|s| - 1])
  {
    hide Markers;
    TrailingSeparator(s[..|s| - 1], s[|s| - 1]);
    assert s[..|s| - 1] + [s[|s| - 1]] == s;
  }

  lemma {:induction false} TrailingSeparators(s: string, kept: nat)
    requires kept <= |s| && forall i :: kept <= i < |s| ==> Separates(s[i])
    ensures Markers(s) == Markers(s[..kept])
    decreases |s|
  {
    if kept == |s| {
      assert s[..kept] == s;
    } else {
      DropSeparator(s);
      TrailingSeparators(s[..|s| - 1], kept);
      assert s[..|s| - 1][..kept] == s[..kept];
    }
  }

  lemma SpaceSeparates(c: char)
    requires IsSpace(c)
    ensures Separates(c)
  {
  }

  lemma {:induction false} StrippedSeparates(s: string)
    ensures forall i :: |RStrip(s)| <= i < |s| ==> Separates(s[i])
  {
    if s != [] && IsSpace(s[|s| - 1]) {
      StrippedSeparates(s[..|s| - 1]);
      SpaceSeparates(s[|s| - 1]);
    }
  }

  /** Stripping trailing whitespace keeps the markers. */
  lemma StripKeepsMarkers(s: string)
    ensures Markers(RStrip(s)) == Markers(s)
  {
    StrippedSeparates(s);
    TrailingSeparators(s, |RStrip(s)|);
    assert s[..|RStrip(s)|] == RStrip(s);
  }

  predicate NoDoubleBracket(s: string) {
    forall i :: 0 <= i < |s| - 1 ==> !(s[i] == '[' && s[i + 1] == '[')
  }

  lemma {:induction false} NoBracketsNoMarkers(s: string)
    requires NoDoubleBracket(s)
    ensures Markers(s) == []
  {
    if s != [] {
      assert |s| >= 2 ==> !(s[0] == '[' && s[0 + 1] == '[');
      assert NoDoubleBracket(s[1..]) by {
        assert forall i :: 0 <= i < |s[1..]| ==> s[1..][i] == s[i + 1];
      }
      NoBracketsNoMarkers(s[1..]);
    }
  }

  /** An escaped title cannot forge a marker: each of its brackets follows a backslash. */
  lemma {:induction false} EscapedHasNoMarkers(title: string)
    ensures NoDoubleBracket(Escaped(title, ESCAPABLE))
    ensures Escaped(title, ESCAPABLE) != [] ==> Escaped(title, ESCAPABLE)[0] != '['
  {
    if title != [] {
      var rest := Escaped(title[1..], ESCAPABLE);
      EscapedHasNoMarkers(title[1..]);
      assert '[' in ESCAPABLE by { assert ESCAPABLE[4] == '['; }
      var head := if title[0] in ESCAPABLE then ['\\', title[0]] else [title[0]];
      assert Escaped(title, ESCAPABLE) == head + rest;
      forall i | 0 <= i < |head + rest| - 1
        ensures !((head + rest)[i] == '[' && (head + rest)[i + 1] == '[')
      {
        if i >= |head| {
          assert (head + rest)[i] == rest[i - |head|];
          assert (head + rest)[i + 1] == rest[i - |head| + 1];
        }
      }
    }
  }

  // ---- The appended list ----

  const HEADER: string := "\n\nSources:\n"

  function Fallback(c: Citation): string {
    "- [[" + c.id + "]]"
  }

  function SourceLine(c: Citation): string {
    Fallback(c) + " " + Escaped(c.title, ESCAPABLE) + " \U{2014} " + c.url + "\n"
  }

  function Lines(citations: seq<Citation>): string {
    if citations == [] then [] else Lines(citations[..|citations| - 1]) + SourceLine(citations[|citations| - 1])
  }

  function Room(answer: string): int {
    MAX_FINAL_ANSWER_CHARACTERS - |answer| - |HEADER|
  }

  /** How much of an answer without room is kept: enough for the header and one marker. */
  function Kept(first: Citation): int {
    MAX_FINAL_ANSWER_CHARACTERS - |HEADER| - |Fallback(first)|
  }

  /** The answer as it stands above the list: stripped, and cut when it leaves no room at all. */
  function Above(finalAnswer: string, first: Citation): (above: string)
    requires ValidId(first.id)
    ensures Room(above) > 0
    ensures Room(RStrip(finalAnswer)) <= 0 ==> Room(above) >= |Fallback(first)|
  {
    var answer := RStrip(finalAnswer);
    if Room(answer) > 0 then answer else RStrip(answer[..Kept(first)])
  }

  /** `n` is how many source lines fit, from the first on. */
  predicate Fitting(citations: seq<Citation>, room: int, n: nat) {
    && n <= |citations|
    && |Lines(citations[..n])| <= room
    && (n < |citations| ==> |Lines(citations[..n + 1])| > room)
  }

  /** What stands below the header: the lines that fit, or as much of one marker as does. */
  function Below(citations: seq<Citation>, room: nat, n: nat): (below: string)
    requires citations != [] && Fitting(citations, room, n)
    ensures |below| <= room
  {
    if n > 0 then RStrip(Lines(citations[..n]))
    else if room < |Fallback(citations[0])| then RStrip(Fallback(citations[0])[..room])
    else RStrip(Fallback(citations[0]))
  }

  lemma LinesNext(citations: seq<Citation>, n: nat)
    requires n < |citations|
    ensures Lines(citations[..n + 1]) == Lines(citations[..n]) + SourceLine(citations[n])
  {
    assert citations[..n + 1][..n] == citations[..n];
  }

  /** The loop over the sources: take lines while they fit. */
  method TakeLines(citations: seq<Citation>, room: nat) returns (lines: string, truncated: bool, n: nat)
    ensures Fitting(citations, room, n) && lines == Lines(citations[..n])
    ensures truncated <==> n < |citations|
  {
    lines, truncated, n := "", false, 0;
    var available := room;
    while n < |citations|
      invariant n <= |citations|
      invariant lines == Lines(citations[..n]) && available == room - |lines| >= 0
    {
      var title := EscapeSourceTitle(citations[n].title);
      var line := "- [[" + citations[n].id + "]]" + " " + title + " \U{2014} " + citations[n].url + "\n";
      assert line == SourceLine(citations[n]);
      LinesNext(citations, n);
      if |line| > available {
        truncated := true;
        return;
      }
      lines := lines + line;
      available := available - |line|;
      n := n + 1;
    }
  }

  /** `s` without its trailing whitespace. */
  predicate StripsTo(s: string, stripped: string) {
    && stripped <= s
    && (forall i | |stripped| <= i < |s| :: IsSpace(s[i]))
    && (stripped == [] || !IsSpace(stripped[|stripped| - 1]))
  }

  /** Nothing but whitespace stands where the header and one more character have to be. */
  predicate LeavesRoom(finalAnswer: string) {
    forall i | MAX_FINAL_ANSWER_CHARACTERS - |HEADER| - 1 <= i < |finalAnswer| :: IsSpace(finalAnswer[i])
  }

  /**
   What is kept of the answer: all of it but its trailing whitespace when that leaves
   room, and otherwise all that the header and one marker leave room for.
   */
  predicate KeepsAnswer(finalAnswer: string, first: Citation, kept: string)
    requires ValidId(first.id)
  {
    if LeavesRoom(finalAnswer) then StripsTo(finalAnswer, kept)
    else
      var limit := MAX_FINAL_ANSWER_CHARACTERS - |HEADER| - |"- [[" + first.id + "]]"|;
      limit <= |finalAnswer| && StripsTo(finalAnswer[..limit], kept)
  }

  /** The first `n` source lines, which fit, or as much of one marker as does. */
  predicate ListsSources(citations: seq<Citation>, room: int, n: nat, list: string)
    requires citations != []
  {
    && Fitting(citations, room, n)
    && (if n > 0 then StripsTo(Lines(citations[..n]), list)
        else
          var marker := "- [[" + citations[0].id + "]]";
          0 <= room && StripsTo(if room < |marker| then marker[..room] else marker, list))
  }

  /** The text is what is kept of the answer, the header, and the list. */
  predicate IsAppended(
    finalAnswer: string, citations: seq<Citation>, text: string, kept: string, n: nat, list: string)
    requires citations != [] && ValidId(citations[0].id)
  {
    && text == kept + "\n\nSources:\n" + list
    && KeepsAnswer(finalAnswer, citations[0], kept)
    && ListsSources(citations, MAX_FINAL_ANSWER_CHARACTERS - |kept| - |HEADER|, n, list)
  }

  lemma {:induction false} RStripStrips(s: string)
    ensures StripsTo(s, RStrip(s))
  {
    if s != [] && IsSpace(s[|s| - 1]) {
      RStripStrips(s[..|s| - 1]);
    }
  }

  lemma AboveIsKept(finalAnswer: string, first: Citation)
    requires ValidId(first.id)
    ensures KeepsAnswer(finalAnswer, first, Above(finalAnswer, first))
  {
    var answer := RStrip(finalAnswer);
    RStripStrips(finalAnswer);
    if Room(answer) > 0 {
      assert LeavesRoom(finalAnswer);
    } else {
      assert !IsSpace(finalAnswer[|answer| - 1]);
      assert answer[..Kept(first)] == finalAnswer[..Kept(first)];
      RStripStrips(answer[..Kept(first)]);
    }
  }

  lemma BelowIsListed(citations: seq<Citation>, room: nat, n: nat)
    requires citations != [] && Fitting(citations, room, n)
    ensures ListsSources(citations, room, n, Below(citations, room, n))
  {
    RStripStrips(Lines(citations[..n]));
    RStripStrips(Fallback(citations[0]));
    if room < |Fallback(citations[0])| {
      RStripStrips(Fallback(citations[0])[..room]);
    }
  }

  /** A source line holds the id, the title and the URL: the title comes back by unescaping. */
  lemma LineNamesSource(c: Citation)
    ensures Fallback(c) + " " <= SourceLine(c)
    ensures exists escaped ::
              && SourceLine(c) == "- [[" + c.id + "]] " + escaped + " \U{2014} " + c.url + "\n"
              && Unescaped(escaped) == c.title
  {
    UnescapeUndoesEscape(c.title, ESCAPABLE);
    var escaped := Escaped(c.title, ESCAPABLE);
    assert SourceLine(c) == "- [[" + c.id + "]] " + escaped + " \U{2014} " + c.url + "\n";
  }

  /** List as many sources as fit below the answer; the text never passes its bound. */
  method AppendSources(finalAnswer: string, citations: seq<Citation>)
    returns (text: string, truncated: bool, n: nat, ghost kept: string, ghost list: string)
    requires citations != [] && ValidId(citations[0].id)
    ensures IsAppended(finalAnswer, citations, text, kept, n, list)
    ensures |text| <= MAX_FINAL_ANSWER_CHARACTERS
    ensures Fitting(citations, Room(Above(finalAnswer, citations[0])), n)
    ensures text == Above(finalAnswer, citations[0]) + HEADER
                    + Below(citations, Room(Above(finalAnswer, citations[0])), n)
    ensures truncated <==> n < |citations|
  {
    hide IsAppended, Lines;
    var answer := RStrip(finalAnswer);
    var available := MAX_FINAL_ANSWER_CHARACTERS - |answer| - |HEADER|;
    if available <= 0 {
      var required := |HEADER| + |Fallback(citations[0])|;
      answer := RStrip(answer[..MAX_FINAL_ANSWER_CHARACTERS - required]);
      available := MAX_FINAL_ANSWER_CHARACTERS - |answer| - |HEADER|;
    }
    var lines;
    lines, truncated, n := TakeLines(citations, available);
    if n == 0 {
      var fallback := Fallback(citations[0]);
      lines := if available < |fallback| then fallback[..available] else fallback;
      truncated := true;
    }
    text := answer + HEADER + RStrip(lines);
    kept, list := Above(finalAnswer, citations[0]), Below(citations, Room(Above(finalAnswer, citations[0])), n);
    AppendedParts(finalAnswer, citations, text, n);
  }

  lemma AppendedParts(finalAnswer: string, citations: seq<Citation>, text: string, n: nat)
    requires citations != [] && ValidId(citations[0].id)
    requires Fitting(citations, Room(Above(finalAnswer, citations[0])), n)
    requires text == Above(finalAnswer, citations[0]) + HEADER
                     + Below(citations, Room(Above(finalAnswer, citations[0])), n)
    ensures IsAppended(
      finalAnswer, citations, text, Above(finalAnswer, citations[0]), n,
      Below(citations, Room(Above(finalAnswer, citations[0])), n))
  {
    AboveIsKept(finalAnswer, citations[0]);
    BelowIsListed(citations, Room(Above(finalAnswer, citations[0])), n);
    hide Above, Below, KeepsAnswer, ListsSources, Fitting;
  }

  // ---- What the list cites ----

  lemma {:induction false} DigitRunAll(digits: string)
    requires AllDigits(digits)
    ensures DigitRun(digits) == |digits|
  {
    if digits != [] {
      DigitRunAll(digits[1..]);
    }
  }

  lemma MarkerIsFound(id: string)
    requires ValidId(id)
    ensures Markers("[[" + id + "]]") == [id]
  {
    var marker := "[[" + id + "]]";
    DigitRunAll(id[1..]);
    DigitRunStops(id[1..], ']', "]");
    assert marker[3..] == id[1..] + "]" + "]";
    assert marker[3 + |id[1..]|..] == "]]";
    assert MarkerLength(marker) == |marker|;
    assert marker[2..|marker| - 2] == id;
    assert marker[|marker|..] == [];
    MarkersUnfold(marker);
  }

  /** Text after a line's end adds its own markers. */
  lemma AfterLineEnd(a: string, b: string)
    ensures Markers(a + "\n" + b) == Markers(a + "\n") + Markers(b)
  {
    MarkersSplit(a, '\n', b);
    TrailingSeparator(a, '\n');
  }

  lemma MarkersAcross(all: string, a: string, c: char, b: string)
    requires all == a + [c] + b && Separates(c)
    ensures Markers(all) == Markers(a) + Markers(b)
  {
    MarkersSplit(a, c, b);
  }

  lemma DashHasNoMarkers()
    ensures Markers("-") == []
  {
    NoBracketsNoMarkers("-");
  }

  lemma FallbackParts(c: Citation)
    ensures Fallback(c) == "-" + " " + ("[[" + c.id + "]]")
  {
  }

  lemma FallbackMarkers(c: Citation)
    requires ValidId(c.id)
    ensures Markers(Fallback(c)) == [c.id]
  {
    var marker := "[[" + c.id + "]]";
    DashHasNoMarkers();
    MarkerIsFound(c.id);
    FallbackParts(c);
    MarkersAcross(Fallback(c), "-", ' ', marker);
  }

  const DASH: string := " \U{2014}"

  /** What follows the marker and its space: the title, a dash, a space, the URL and the line's end. */
  function AfterMarker(c: Citation): string {
    (Escaped(c.title, ESCAPABLE) + DASH) + " " + (c.url + "\n")
  }

  lemma TitleCitesNothing(title: string)
    ensures Markers(Escaped(title, ESCAPABLE) + DASH) == []
  {
    var escaped := Escaped(title, ESCAPABLE);
    EscapedHasNoMarkers(title);
    forall i | 0 <= i < |escaped + DASH| - 1
      ensures !((escaped + DASH)[i] == '[' && (escaped + DASH)[i + 1] == '[')
    {
      if i + 1 < |escaped| {
        assert (escaped + DASH)[i] == escaped[i] && (escaped + DASH)[i + 1] == escaped[i + 1];
      } else {
        assert (escaped + DASH)[i + 1] == DASH[i + 1 - |escaped|];
      }
    }
    NoBracketsNoMarkers(escaped + DASH);
  }

  lemma AfterMarkerCitesUrl(c: Citation)
    ensures Markers(AfterMarker(c)) == Markers(c.url)
  {
    TitleCitesNothing(c.title);
    MarkersAcross(AfterMarker(c), Escaped(c.title, ESCAPABLE) + DASH, ' ', c.url + "\n");
    TrailingSeparator(c.url, '\n');
  }

  lemma SourceLineParts(c: Citation)
    ensures SourceLine(c) == Fallback(c) + " " + AfterMarker(c)
  {
  }

  /** What one source line cites: its own source, and whatever markers its URL spells out. */
  function CitedBy(c: Citation): seq<string> {
    [c.id] + Markers(c.url)
  }

  lemma SourceLineMarkers(c: Citation)
    requires ValidId(c.id)
    ensures Markers(SourceLine(c)) == CitedBy(c)
  {
    hide Markers;
    SourceLineParts(c);
    AfterMarkerCitesUrl(c);
    FallbackMarkers(c);
    MarkersAcross(SourceLine(c), Fallback(c), ' ', AfterMarker(c));
  }

  function Ids(citations: seq<Citation>): seq<string> {
    if citations == [] then [] else Ids(citations[..|citations| - 1]) + [citations[|citations| - 1].id]
  }

  function CitedByAll(citations: seq<Citation>): seq<string> {
    if citations == [] then []
    else CitedByAll(citations[..|citations| - 1]) + CitedBy(citations[|citations| - 1])
  }

  predicate ValidIds(citations: seq<Citation>) {
    forall c :: c in citations ==> ValidId(c.id)
  }

  lemma {:induction false} LinesMarkers(citations: seq<Citation>)
    requires ValidIds(citations)
    ensures Markers(Lines(citations)) == CitedByAll(citations)
  {
    if citations != [] {
      var earlier, last := citations[..|citations| - 1], citations[|citations| - 1];
      LinesMarkers(earlier);
      SourceLineMarkers(last);
      if earlier == [] {
        assert Lines(citations) == SourceLine(last);
      } else {
        LineAfterLines(Lines(earlier), SourceLine(last));
      }
    }
  }

  lemma LineAfterLines(lines: string, line: string)
    requires lines != [] && lines[|lines| - 1] == '\n'
    ensures Markers(lines + line) == Markers(lines) + Markers(line)
  {
    hide Markers;
    AfterLineEnd(lines[..|lines| - 1], line);
    assert lines[..|lines| - 1] + "\n" == lines;
  }

  predicate UrlsCiteNothing(citations: seq<Citation>) {
    forall c :: c in citations ==> Markers(c.url) == []
  }

  /** The list cites exactly the ids it lists if and only if no listed URL spells out a marker. */
  lemma {:induction false} ListCitesOnlyIds(citations: seq<Citation>)
    ensures CitedByAll(citations) == Ids(citations) <==> UrlsCiteNothing(citations)
    ensures |CitedByAll(citations)| >= |Ids(citations)| == |citations|
  {
    if citations != [] {
      var earlier, last := citations[..|citations| - 1], citations[|citations| - 1];
      assert citations == earlier + [last];
      ListCitesOnlyIds(earlier);
      assert UrlsCiteNothing(citations) <==> UrlsCiteNothing(earlier) && Markers(last.url) == [] by {
        assert forall c :: c in citations <==> c in earlier || c == last;
      }
      if |CitedByAll(citations)| == |Ids(citations)| {
        assert CitedByAll(citations)[..|earlier|] == CitedByAll(earlier);
        assert Ids(citations)[..|earlier|] == Ids(earlier);
      }
    }
  }

  const TITLE: string := "\nSources:"

  lemma TitleHasNoMarkers()
    ensures Markers(TITLE) == []
  {
    NoBracketsNoMarkers(TITLE);
  }

  function BelowTitle(below: string): string {
    TITLE + "\n" + below
  }

  lemma TitleAddsNone(below: string)
    ensures Markers(BelowTitle(below)) == Markers(below)
  {
    TitleHasNoMarkers();
    MarkersAcross(BelowTitle(below), TITLE, '\n', below);
  }

  /** The header separates the markers above it from those below. */
  lemma HeaderSeparates(above: string, below: string)
    ensures Markers(above + HEADER + below) == Markers(above) + Markers(below)
  {
    hide Markers;
    TitleAddsNone(below);
    assert HEADER == "\n" + TITLE + "\n";
    assert above + HEADER + below == above + "\n" + BelowTitle(below);
    MarkersAcross(above + HEADER + below, above, '\n', BelowTitle(below));
  }

  /**
   The appended list cites the sources it lists, in order, each followed by the markers
   its URL spells out; no title adds one. So it cites exactly its own sources if and only
   if no listed URL contains a marker. Not truncated, these are all the sources.
   */
  lemma ListCitesWhatItLists(finalAnswer: string, citations: seq<Citation>, n: nat)
    requires citations != [] && ValidIds(citations)
    requires Fitting(citations, Room(Above(finalAnswer, citations[0])), n) && n > 0
    ensures
      var above := Above(finalAnswer, citations[0]);
      var below := Below(citations, Room(above), n);
      && Markers(above + HEADER + below) == Markers(above) + CitedByAll(citations[..n])
      && Markers(below) == CitedByAll(citations[..n])
      && (Markers(below) == Ids(citations[..n]) <==> UrlsCiteNothing(citations[..n]))
  {
    hide Markers;
    var above := Above(finalAnswer, citations[0]);
    HeaderSeparates(above, Below(citations, Room(above), n));
    LinesMarkers(citations[..n]);
    StripKeepsMarkers(Lines(citations[..n]));
    ListCitesOnlyIds(citations[..n]);
  }

  const QUERY: string := "https://a.example/?q"

  function ForgedUrl(id: string): string {
    QUERY + "=" + ("[[" + id + "]]")
  }

  lemma QueryHasNoMarkers()
    ensures Markers(QUERY) == []
  {
    NoBracketsNoMarkers(QUERY);
  }

  lemma ForgedUrlMarkers(id: string)
    requires ValidId(id)
    ensures Markers(ForgedUrl(id)) == [id]
  {
    QueryHasNoMarkers();
    MarkerIsFound(id);
    MarkersAcross(ForgedUrl(id), QUERY, '=', "[[" + id + "]]");
  }

  const SCHEME: string := "https://"
  const MAX_URL_CHARACTERS: nat := 8_000

  predicate IsControl(c: char) {
    c < ' ' || '\U{7f}' <= c <= '\U{9f}'
  }

  predicate IsHostChar(c: char) {
    'a' <= c <= 'z' || IsDigit(c) || c == '.' || c == '-'
  }

  /** The plainest host: an authority without user information, port, brackets or percent signs. */
  predicate HasPlainHost(url: string, end: nat) {
    && |SCHEME| < end < |url| && url[end] == '/'
    && (forall i | |SCHEME| <= i < end :: IsHostChar(url[i])) && 'a' <= url[|SCHEME|] <= 'z'
  }

  /** All that the citation validator asks of a URL, for one with a plain host. */
  predicate PlainUrl(url: string) {
    && 1 <= |url| <= MAX_URL_CHARACTERS
    && (forall i | 0 <= i < |url| :: !IsControl(url[i]) && !IsSpace(url[i]) && url[i] != '\\')
    && SCHEME <= url
    && exists end: nat | end < |url| :: HasPlainHost(url, end)
  }

  lemma ForgedUrlIsPlain(id: string)
    requires ValidId(id)
    ensures PlainUrl(ForgedUrl(id))
  {
    var url := ForgedUrl(id);
    forall i | 0 <= i < |url|
      ensures !IsControl(url[i]) && !IsSpace(url[i]) && url[i] != '\\'
    {
      var k := i - |QUERY| - 3;
      if 1 <= k < |id| {
        assert url[i] == id[k] == id[1..][k - 1] && id[1..][k - 1] in id[1..];
      } else if 0 <= i < |QUERY| {
        assert url[i] == QUERY[i];
      }
    }
    assert SCHEME <= QUERY <= url;
    assert QUERY[17] == '/' && forall i | 8 <= i < 17 :: IsHostChar(QUERY[i]);
    assert HasPlainHost(url, 17);
  }

  /** A URL as the citation validator accepts it makes a list cite a source it does not list. */
  lemma UrlCanForgeMarker(title: string, id: string)
    requires ValidId(id) && id != "S1"
    ensures
      var c := Citation("S1", title, ForgedUrl(id));
      && ValidId(c.id) && PlainUrl(c.url)
      && Markers(SourceLine(c)) == ["S1", id] && !HasId([c], id) && !UrlsCiteNothing([c])
  {
    var c := Citation("S1", title, ForgedUrl(id));
    ForgedUrlMarkers(id);
    ForgedUrlIsPlain(id);
    hide Markers, ForgedUrl, PlainUrl;
    SourceLineMarkers(c);
    assert c in [c] && Markers(c.url) != [];
  }

  predicate Cites(answer: string, citations: seq<Citation>) {
    exists id :: id in Markers(answer) && HasId(citations, id)
  }

  /** The answer leaves some room, but not enough for one marker. */
  predicate Cramped(finalAnswer: string, first: Citation) {
    0 < Room(RStrip(finalAnswer)) < |Fallback(first)|
  }

  lemma {:induction false} LinesStart(citations: seq<Citation>)
    requires citations != []
    ensures Fallback(citations[0]) + " " <= Lines(citations)
  {
    if |citations| == 1 {
      SourceLineParts(citations[0]);
      assert Lines(citations[..0]) == [];
    } else {
      LinesStart(citations[..|citations| - 1]);
    }
  }

  lemma FirstLineCites(citations: seq<Citation>)
    requires citations != [] && ValidId(citations[0].id)
    ensures citations[0].id in Markers(Lines(citations))
  {
    var lines, first := Lines(citations), Fallback(citations[0]);
    LinesStart(citations);
    assert lines[..|first| + 1] == first + " ";
    assert lines == lines[..|first| + 1] + lines[|first| + 1..];
    MarkersAcross(lines, first, ' ', lines[|first| + 1..]);
    FallbackMarkers(citations[0]);
  }

  predicate NoDoubleClose(s: string) {
    forall i :: 0 <= i < |s| - 1 ==> !(s[i] == ']' && s[i + 1] == ']')
  }

  lemma MarkerEnds(s: string)
    ensures MarkerLength(s) > 0 ==> s[MarkerLength(s) - 2] == ']' && s[MarkerLength(s) - 2 + 1] == ']'
  {
    if MarkerLength(s) > 0 {
      var close := s[3 + DigitRun(s[3..])..];
      assert close[0] == ']' && close[1] == ']';
    }
  }

  lemma {:induction false} NoClosesNoMarkers(s: string)
    requires NoDoubleClose(s)
    ensures Markers(s) == []
  {
    if s != [] {
      MarkerEnds(s);
      assert NoDoubleClose(s[1..]) by {
        assert forall i :: 0 <= i < |s[1..]| ==> s[1..][i] == s[i + 1];
      }
      NoClosesNoMarkers(s[1..]);
    }
  }

  /** A cut marker cites nothing. */
  lemma CutFallbackCitesNothing(c: Citation, room: nat)
    requires ValidId(c.id) && room < |Fallback(c)|
    ensures Markers(RStrip(Fallback(c)[..room])) == []
  {
    var cut := Fallback(c)[..room];
    forall i | 0 <= i < |cut| - 1
      ensures !(cut[i] == ']' && cut[i + 1] == ']')
    {
      if 4 <= i < 4 + |c.id| {
        assert cut[i] == c.id[i - 4];
        assert i > 4 ==> c.id[i - 4] == c.id[1..][i - 5] && c.id[1..][i - 5] in c.id[1..];
      }
    }
    NoClosesNoMarkers(cut);
    StripKeepsMarkers(cut);
  }

  /** Appending always makes the answer cite a source, except to a cramped answer. */
  lemma AppendedCites(finalAnswer: string, citations: seq<Citation>, n: nat)
    requires citations != [] && ValidId(citations[0].id)
    requires Fitting(citations, Room(Above(finalAnswer, citations[0])), n)
    ensures
      var above := Above(finalAnswer, citations[0]);
      var below := Below(citations, Room(above), n);
      if Cramped(finalAnswer, citations[0]) then Markers(below) == [] && Markers(above) == Markers(finalAnswer)
      else citations[0].id in Markers(below)
  {
    var first := citations[0];
    var room: nat := Room(Above(finalAnswer, first));
    if n > 0 {
      FirstLineCites(citations[..n]);
      StripKeepsMarkers(Lines(citations[..n]));
      LinesStart(citations[..n]);
    } else if room < |Fallback(first)| {
      CutFallbackCitesNothing(first, room);
    } else {
      FallbackMarkers(first);
      StripKeepsMarkers(Fallback(first));
    }
    StripKeepsMarkers(finalAnswer);
  }

  /** A text below an uncited answer cites a source exactly when the answer was not cramped. */
  lemma AppendedTextCites(finalAnswer: string, citations: seq<Citation>, n: nat, text: string)
    requires citations != [] && ValidId(citations[0].id) && !Cites(finalAnswer, citations)
    requires Fitting(citations, Room(Above(finalAnswer, citations[0])), n)
    requires text == Above(finalAnswer, citations[0]) + HEADER
                     + Below(citations, Room(Above(finalAnswer, citations[0])), n)
    ensures Cites(text, citations) <==> !Cramped(finalAnswer, citations[0])
  {
    var above := Above(finalAnswer, citations[0]);
    AppendedCites(finalAnswer, citations, n);
    HeaderSeparates(above, Below(citations, Room(above), n));
    assert HasId(citations, citations[0].id);
    if !Cramped(finalAnswer, citations[0]) {
      assert citations[0].id in Markers(text);
    }
  }

  lemma {:induction false} LinesGrow(citations: seq<Citation>, n: nat)
    requires n <= |citations|
    ensures |Lines(citations[..n])| <= |Lines(citations)|
    decreases |citations|
  {
    if n == |citations| {
      assert citations[..n] == citations;
    } else {
      LinesGrow(citations[..|citations| - 1], n);
      assert citations[..|citations| - 1][..n] == citations[..n];
    }
  }

  lemma AllFitExactly(citations: seq<Citation>, room: int, n: nat)
    requires Fitting(citations, room, n)
    ensures n < |citations| <==> |Lines(citations)| > room
    ensures n == |citations| ==> citations[..n] == citations
  {
    if n < |citations| {
      LinesGrow(citations, n + 1);
    } else {
      assert citations[..n] == citations;
    }
  }

  /** An answer that leaves room for one character. */
  function CrampedAnswer(): string {
    seq(MAX_FINAL_ANSWER_CHARACTERS - |HEADER| - 1, _ => 'a')
  }

  /** It cites nothing, and still cites nothing once its list is appended. */
  lemma CrampedAnswerStaysUncited(citations: seq<Citation>, n: nat, text: string)
    requires citations != [] && ValidId(citations[0].id)
    requires Fitting(citations, Room(Above(CrampedAnswer(), citations[0])), n)
    requires text == Above(CrampedAnswer(), citations[0]) + HEADER
                     + Below(citations, Room(Above(CrampedAnswer(), citations[0])), n)
    ensures !Cites(CrampedAnswer(), citations) && Cramped(CrampedAnswer(), citations[0]) && !Cites(text, citations)
  {
    var answer := CrampedAnswer();
    assert answer[|answer| - 1] == 'a' && RStrip(answer) == answer;
    NoBracketsNoMarkers(answer);
    assert !Cites(answer, citations);
    AppendedTextCites(answer, citations, n, text);
  }

  /** What validating an answer leaves: the answer itself, or with the list below what is kept of it. */
  ghost predicate IsValidated(finalAnswer: string, citations: seq<Citation>, answer: string)
    requires forall c :: c in citations ==> ValidId(c.id)
  {
    if citations == [] || Cites(finalAnswer, citations) then answer == finalAnswer
    else exists kept, n, list :: IsAppended(finalAnswer, citations, answer, kept, n, list)
  }

  /** Validating never leaves an empty answer where there was one. */
  lemma ValidatedIsPresent(finalAnswer: string, citations: seq<Citation>, answer: string)
    requires forall c :: c in citations ==> ValidId(c.id)
    requires finalAnswer != "" && IsValidated(finalAnswer, citations, answer)
    ensures answer != ""
  {
    if citations != [] && !Cites(finalAnswer, citations) {
      var kept, n, list :| IsAppended(finalAnswer, citations, answer, kept, n, list);
    }
  }

  datatype Diagnostic = InvalidId | SourcesAppended | SourcesTruncated

  /** The list below an uncited answer, and what was reported about it. */
  method AppendToUncited(finalAnswer: string, citations: seq<Citation>)
    returns (answer: string, diagnostics: seq<Diagnostic>, n: nat, ghost kept: string, ghost list: string)
    requires citations != [] && ValidId(citations[0].id) && !Cites(finalAnswer, citations)
    ensures IsAppended(finalAnswer, citations, answer, kept, n, list)
    ensures |answer| <= MAX_FINAL_ANSWER_CHARACTERS
    ensures Cites(answer, citations) <==> !Cramped(finalAnswer, citations[0])
    ensures diagnostics == if |Lines(citations)| > Room(Above(finalAnswer, citations[0]))
                           then [SourcesAppended, SourcesTruncated] else [SourcesAppended]
    ensures |diagnostics| == 1 ==> answer == Above(finalAnswer, citations[0]) + HEADER + RStrip(Lines(citations))
  {
    var truncated;
    answer, truncated, n, kept, list := AppendSources(finalAnswer, citations);
    AppendedTextCites(finalAnswer, citations, n, answer);
    AllFitExactly(citations, Room(Above(finalAnswer, citations[0])), n);
    diagnostics := if truncated then [SourcesAppended, SourcesTruncated] else [SourcesAppended];
  }

  /**
   An answer that cites a known source, or a turn without sources, is left alone. Any
   other answer gets the list, after which it cites a source unless it was cramped.
   */
  method ValidateAnswerCitations(finalAnswer: string, citations: seq<Citation>)
    returns (answer: string, diagnostics: seq<Diagnostic>, n: nat, ghost kept: string, ghost list: string)
    requires forall c :: c in citations ==> ValidId(c.id)
    ensures citations != [] && !Cites(finalAnswer, citations) ==>
              IsAppended(finalAnswer, citations, answer, kept, n, list)
    ensures IsValidated(finalAnswer, citations, answer)
    ensures citations == [] || Cites(finalAnswer, citations) ==> answer == finalAnswer
    ensures |finalAnswer| <= MAX_FINAL_ANSWER_CHARACTERS ==> |answer| <= MAX_FINAL_ANSWER_CHARACTERS
    ensures citations != [] ==>
              (Cites(answer, citations) <==> Cites(finalAnswer, citations) || !Cramped(finalAnswer, citations[0]))
    ensures InvalidId in diagnostics <==> exists id :: id in Markers(finalAnswer) && !HasId(citations, id)
    ensures SourcesAppended in diagnostics <==> citations != [] && !Cites(finalAnswer, citations)
    ensures SourcesTruncated in diagnostics <==>
              && citations != [] && !Cites(finalAnswer, citations)
              && |Lines(citations)| > Room(Above(finalAnswer, citations[0]))
    ensures SourcesAppended in diagnostics && SourcesTruncated !in diagnostics ==>
              answer == Above(finalAnswer, citations[0]) + HEADER + RStrip(Lines(citations))
  {
    hide Markers, Lines, Above, Cramped, HasId, ValidId;
    answer, diagnostics, n, kept, list := finalAnswer, [], 0, "", "";
    var markers := Markers(finalAnswer);
    if exists i :: 0 <= i < |markers| && !HasId(citations, markers[i]) {
      diagnostics := [InvalidId];
    }
    var referenced := exists i :: 0 <= i < |markers| && HasId(citations, markers[i]);
    if citations != [] && !referenced {
      var more;
      answer, more, n, kept, list := AppendToUncited(finalAnswer, citations);
      diagnostics := diagnostics + more;
    }
  }
}
