/** The validity decision of the coordinates dialog (windows/dialog.py):
    `COORDINATES_PATTERN.match(text)` with the pattern
    `(-?\d+,-?\d+;)*-?\d+,-?\d+`. Python's `re.match` anchors the pattern at the
    start of the text only, so the text is accepted exactly when some PREFIX of
    it belongs to the pattern's language. */
module CoordinateDialog {
  import opened Naming

  /** \d+ */
  predicate IsDigits(w: string)
  {
    |w| > 0 && forall i :: 0 <= i < |w| ==> IsDigit(w[i])
  }

  /** -?\d+ */
  predicate IsInteger(w: string)
  {
    IsDigits(w) || (|w| > 0 && w[0] == '-' && IsDigits(w[1..]))
  }

  /** -?\d+,-?\d+ : two integers around one comma. */
  ghost predicate IsPair(w: string)
  {
    exists k :: 0 <= k < |w| && w[k] == ',' && IsInteger(w[..k]) && IsInteger(w[k + 1..])
  }

  /** (-?\d+,-?\d+;)*-?\d+,-?\d+ : one or more pairs separated by ';'. */
  ghost predicate InLanguage(w: string)
    decreases |w|
  {
    IsPair(w)
    || exists k :: 0 <= k < |w| && w[k] == ';' && IsPair(w[..k]) && InLanguage(w[k + 1..])
  }

  /** What `re.match` decides: some prefix of the text is in the language. */
  ghost predicate PatternMatches(text: string)
  {
    exists n :: 0 <= n <= |text| && InLanguage(text[..n])
  }

  /** The text starts with a pair. */
  ghost predicate StartsWithPair(text: string)
  {
    exists n :: 0 <= n <= |text| && IsPair(text[..n])
  }

  /** Just past an optional '-' at i. */
  function SignEnd(text: string, i: nat): (j: nat)
    requires i <= |text|
    ensures i <= j <= |text| && j <= i + 1
  {
    if i < |text| && text[i] == '-' then i + 1 else i
  }

  /** The end of the run of digits that starts at i. */
  function DigitsEnd(text: string, i: nat): (j: nat)
    requires i <= |text|
    ensures i <= j <= |text|
    ensures forall k :: i <= k < j ==> IsDigit(text[k])
    ensures j < |text| ==> !IsDigit(text[j])
    decreases |text| - i
  {
    if i < |text| && IsDigit(text[i]) then DigitsEnd(text, i + 1) else i
  }

  /** The decision made by scanning: an optional '-', at least one digit, a
      comma, an optional '-' and one digit. Whatever follows is not looked at. */
  function Accepts(text: string): bool
  {
    var a := SignEnd(text, 0);
    var b := DigitsEnd(text, a);
    if b == a || b >= |text| || text[b] != ',' then false
    else
      var c := SignEnd(text, b + 1);
      c < |text| && IsDigit(text[c])
  }

  /** Every word of the language begins with a pair, and a pair is itself a word
      of the language: so a start-anchored match is the same as starting with a pair. */
  lemma MatchIsPairPrefix(text: string)
    ensures PatternMatches(text) <==> StartsWithPair(text)
  {
    if PatternMatches(text) {
      var n :| 0 <= n <= |text| && InLanguage(text[..n]);
      var w := text[..n];
      if IsPair(w) {
        assert IsPair(text[..n]);
      } else {
        var k :| 0 <= k < |w| && w[k] == ';' && IsPair(w[..k]) && InLanguage(w[k + 1..]);
        assert w[..k] == text[..k];
      }
    }
    if StartsWithPair(text) {
      var n :| 0 <= n <= |text| && IsPair(text[..n]);
      assert InLanguage(text[..n]);
    }
  }

  /** An optional '-' from start to a, then digits from a to end, is an integer. */
  lemma ScannedInteger(text: string, start: nat, end: nat)
    requires start <= end <= |text|
    requires SignEnd(text, start) < end
    requires forall i :: SignEnd(text, start) <= i < end ==> IsDigit(text[i])
    ensures IsInteger(text[start..end])
  {
    var w := text[start..end];
    if SignEnd(text, start) == start {
      assert forall i :: 0 <= i < |w| ==> w[i] == text[start + i];
      assert IsDigits(w);
    } else {
      assert w[0] == '-';
      assert forall i :: 0 <= i < |w| - 1 ==> w[1..][i] == text[start + 1 + i];
      assert IsDigits(w[1..]);
    }
  }

  /** An integer's digits begin right after its optional '-'. */
  lemma IntegerDigits(text: string, start: nat, end: nat)
    requires start <= end <= |text|
    requires IsInteger(text[start..end])
    ensures SignEnd(text, start) < end
    ensures forall i :: SignEnd(text, start) <= i < end ==> IsDigit(text[i])
  {
    var w := text[start..end];
    assert w[0] == text[start];
    if IsDigits(w) {
      assert SignEnd(text, start) == start;
      assert forall i :: start <= i < end ==> text[i] == w[i - start];
    } else {
      assert SignEnd(text, start) == start + 1;
      assert forall i :: start + 1 <= i < end ==> text[i] == w[1..][i - start - 1];
    }
  }

  /** What the scan accepts starts with a pair: the scanned prefix is one. */
  lemma AcceptedStartsWithPair(text: string)
    requires Accepts(text)
    ensures StartsWithPair(text)
  {
    var a := SignEnd(text, 0);
    var b := DigitsEnd(text, a);
    var c := SignEnd(text, b + 1);
    ScannedInteger(text, 0, b);
    ScannedInteger(text, b + 1, c + 1);
    var w := text[..c + 1];
    assert w[..b] == text[0..b];
    assert w[b + 1..] == text[b + 1..c + 1];
    assert w[b] == ',';
    assert IsPair(w);
  }

  /** A text that starts with a pair is accepted by the scan. */
  lemma PairPrefixAccepted(text: string, n: nat)
    requires n <= |text| && IsPair(text[..n])
    ensures Accepts(text)
  {
    var w := text[..n];
    var k :| 0 <= k < |w| && w[k] == ',' && IsInteger(w[..k]) && IsInteger(w[k + 1..]);
    assert w[..k] == text[0..k];
    assert w[k + 1..] == text[k + 1..n];
    IntegerDigits(text, 0, k);
    IntegerDigits(text, k + 1, n);
    DigitsEndReaches(text, SignEnd(text, 0), k);
  }

  /** The scan accepts exactly the texts that start with a pair. */
  lemma AcceptsIffStartsWithPair(text: string)
    ensures Accepts(text) <==> StartsWithPair(text)
  {
    if Accepts(text) {
      AcceptedStartsWithPair(text);
    }
    if StartsWithPair(text) {
      var n :| 0 <= n <= |text| && IsPair(text[..n]);
      PairPrefixAccepted(text, n);
    }
  }

  /** Scanning digits from i stops exactly at the first non-digit. */
  lemma {:induction false} DigitsEndReaches(text: string, i: nat, j: nat)
    requires i <= j < |text|
    requires forall k :: i <= k < j ==> IsDigit(text[k])
    requires !IsDigit(text[j])
    ensures DigitsEnd(text, i) == j
    decreases j - i
  {
    if i < j {
      DigitsEndReaches(text, i + 1, j);
    }
  }

  /** The scan decides exactly what `COORDINATES_PATTERN.match` decides. */
  lemma AcceptsIffPatternMatches(text: string)
    ensures Accepts(text) <==> PatternMatches(text)
  {
    MatchIsPairPrefix(text);
    AcceptsIffStartsWithPair(text);
  }

  /** Two integers around a comma form a pair. */
  lemma JoinPair(x: string, y: string)
    requires IsInteger(x) && IsInteger(y)
    ensures IsPair(x + "," + y)
  {
    var w := x + "," + y;
    assert w[..|x|] == x && w[|x| + 1..] == y && w[|x|] == ',';
  }

  /** A pair, a ';' and a word of the language form a word of the language. */
  lemma JoinWords(p: string, rest: string)
    requires IsPair(p) && InLanguage(rest)
    ensures InLanguage(p + ";" + rest)
  {
    var w := p + ";" + rest;
    assert w[..|p|] == p && w[|p| + 1..] == rest && w[|p|] == ';';
  }

  /** A pair is a word of the language on its own. */
  lemma PairIsWord(p: string)
    requires IsPair(p)
    ensures InLanguage(p)
  {
  }

  /** re.match accepts every word of the language (the whole text is the prefix). */
  lemma WordMatches(w: string)
    requires InLanguage(w)
    ensures PatternMatches(w)
  {
    assert w[..|w|] == w;
  }

  /** "50,0;50,50": two pairs. */
  lemma HintTailIsWord()
    ensures InLanguage("50,0;50,50")
  {
    var zero, fifty := "0", "50";
    assert IsDigits(zero) && IsDigits(fifty);
    JoinPair(fifty, zero);
    JoinPair(fifty, fifty);
    PairIsWord(fifty + "," + fifty);
    JoinWords(fifty + "," + zero, fifty + "," + fifty);
    assert "50,0;50,50" == (fifty + "," + zero) + ";" + (fifty + "," + fifty);
  }

  /** The hint the wireframe dialog opens with is a word of the language as a
      whole, not only through a prefix. */
  lemma DefaultHintIsWord()
    ensures InLanguage("0,0;50,0;50,50")
  {
    var zero := "0";
    assert IsDigits(zero);
    JoinPair(zero, zero);
    HintTailIsWord();
    JoinWords(zero + "," + zero, "50,0;50,50");
    assert "0,0;50,0;50,50" == (zero + "," + zero) + ";" + "50,0;50,50";
  }

  /** The hint the wireframe dialog opens with is accepted. */
  lemma DefaultHintAccepted()
    ensures PatternMatches("0,0;50,0;50,50")
  {
    DefaultHintIsWord();
    WordMatches("0,0;50,0;50,50");
  }

  /** A third component, as in the hints of the curve dialogs, is ignored:
      "-100,0,0" is accepted. */
  lemma TrailingTextIgnored()
    ensures PatternMatches("-100,0,0")
  {
    var text := "-100,0,0";
    DigitsEndReaches(text, 1, 4);
    assert Accepts(text);
    AcceptsIffPatternMatches(text);
  }

  /** Texts that do not start with a pair are refused: the empty text, text with
      leading blanks, a decimal first coordinate, a letter, and a lone number. */
  lemma RejectedTexts()
    ensures !PatternMatches("")
    ensures !PatternMatches(" 0,0")
    ensures !PatternMatches("0.5,1")
    ensures !PatternMatches("x,1")
    ensures !PatternMatches("12")
    ensures !PatternMatches("-,1")
  {
    AcceptsIffPatternMatches("");
    AcceptsIffPatternMatches(" 0,0");
    AcceptsIffPatternMatches("0.5,1");
    AcceptsIffPatternMatches("x,1");
    AcceptsIffPatternMatches("12");
    AcceptsIffPatternMatches("-,1");
  }

  /** The empty text, and every text whose first character is neither a digit
      nor '-' (a blank or a letter, say), is refused. */
  lemma FirstCharacterRejected(text: string)
    requires text == [] || (!IsDigit(text[0]) && text[0] != '-')
    ensures !PatternMatches(text)
  {
    AcceptsIffPatternMatches(text);
  }

  /** An integer that is the whole text is refused: a pair needs a comma. */
  lemma LoneIntegerRejected(x: string)
    requires IsInteger(x)
    ensures !PatternMatches(x)
  {
    AcceptsIffPatternMatches(x);
  }

  /** A first integer followed directly by anything but a digit or a comma is
      refused, whatever comes after: a decimal first coordinate "0.5,1", or a
      blank before the comma. */
  lemma NoCommaAfterFirstInteger(x: string, ch: char, rest: string)
    requires IsInteger(x) && !IsDigit(ch) && ch != ','
    ensures !PatternMatches(x + [ch] + rest)
  {
    var text := x + [ch] + rest;
    var a := SignEnd(text, 0);
    assert forall k :: a <= k < |x| ==> IsDigit(text[k]);
    DigitsEndReaches(text, a, |x|);
    AcceptsIffPatternMatches(text);
  }

  /** What one run of the dialog does: a response other than OK returns False
      without looking at the text; OK with a valid text returns True; OK with an
      invalid text raises, and the decorator shows a warning and runs the dialog
      again. */
  datatype RunStep = Returned(confirmed: bool) | RunAgain

  function RunOnce(responseIsOk: bool, text: string): (step: RunStep)
    ensures !responseIsOk ==> step == Returned(false)
    ensures responseIsOk ==> (step == Returned(true) <==> PatternMatches(text))
    ensures responseIsOk ==> (step == RunAgain <==> !PatternMatches(text))
  {
    AcceptsIffPatternMatches(text);
    if !responseIsOk then Returned(false)
    else if Accepts(text) then Returned(true)
    else RunAgain
  }
}
