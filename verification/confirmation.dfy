/** Reading the order number out of the backend's free-text confirmation with the
    regular expression `ID:\s*(\d+)`. */
module Confirmation {
  import opened Wrappers
  import opened Text

  const Marker := "ID:"

  /** `ID:\s*(\d+)` matches `s` at position `i`, with whitespace filling `s[i+3..k]` and
      the captured group `s[k..e]` a digit run that greedy `\d+` cannot extend. */
  predicate RegexMatch(s: string, i: int, k: int, e: int) {
    && OccursAt(s, Marker, i)
    && i + 3 <= k < e <= |s|
    && (forall m :: i + 3 <= m < k ==> IsJsWhitespace(s[m]))
    && (forall m :: k <= m < e ==> IsDigit(s[m]))
    && (e == |s| || !IsDigit(s[e]))
  }

  /** No match of the pattern starts in `[from, i)`. */
  ghost predicate NoMatchBetween(s: string, from: int, i: int) {
    forall i', k', e' :: from <= i' < i ==> !RegexMatch(s, i', k', e')
  }

  /** The end of the longest run of whitespace starting at `j`. */
  function SkipWhitespace(s: string, j: nat): (k: nat)
    requires j <= |s|
    ensures j <= k <= |s|
    ensures forall m :: j <= m < k ==> IsJsWhitespace(s[m])
    ensures k == |s| || !IsJsWhitespace(s[k])
    decreases |s| - j
  {
    if j == |s| || !IsJsWhitespace(s[j]) then j else SkipWhitespace(s, j + 1)
  }

  /** The end of the longest run of digits starting at `j`. */
  function DigitRunEnd(s: string, j: nat): (e: nat)
    requires j <= |s|
    ensures j <= e <= |s|
    ensures forall m :: j <= m < e ==> IsDigit(s[m])
    ensures e == |s| || !IsDigit(s[e])
    decreases |s| - j
  {
    if j == |s| || !IsDigit(s[j]) then j else DigitRunEnd(s, j + 1)
  }

  /** A match at a given position has only one shape: whitespace and digits are
      disjoint, so the whitespace run and the greedy digit run are both forced. */
  lemma MatchShape(s: string, i: int, k: int, e: int)
    requires RegexMatch(s, i, k, e)
    ensures k == SkipWhitespace(s, i + 3) && e == DigitRunEnd(s, k)
  {
    var k0 := SkipWhitespace(s, i + 3);
    assert IsDigit(s[k]);
    var e0 := DigitRunEnd(s, k);
  }

  /** A match begins with the letter 'I'. */
  lemma MatchStartsWithI(s: string, i: int, k: int, e: int)
    requires RegexMatch(s, i, k, e)
    ensures s[i] == 'I'
  {
    assert s[i] == s[i..i + 3][0];
  }

  /** The leftmost match at or after `from`, as `String.prototype.match` searches. */
  function ScanFrom(s: string, from: nat): (r: Option<string>)
    ensures r.None? ==> forall i, k, e :: from <= i ==> !RegexMatch(s, i, k, e)
    ensures r.Some? ==> exists i, k, e ::
      from <= i && RegexMatch(s, i, k, e) && r.value == s[k..e] && NoMatchBetween(s, from, i)
    decreases |s| + 3 - from
  {
    if from + 3 > |s| then None
    else
      var found :=
        if s[from..from + 3] == Marker then
          var k := SkipWhitespace(s, from + 3);
          if k < |s| && IsDigit(s[k]) then Some(k) else None
        else None;
      if found.Some? then
        var k := found.value;
        var e := DigitRunEnd(s, k);
        assert RegexMatch(s, from, k, e);
        Some(s[k..e])
      else
        assert forall k, e :: !RegexMatch(s, from, k, e) by {
          forall k, e ensures !RegexMatch(s, from, k, e) {
            if RegexMatch(s, from, k, e) {
              MatchShape(s, from, k, e);
            }
          }
        }
        ScanFrom(s, from + 1)
  }

  /** `extractOrderId`: the digits captured by the leftmost match of `ID:\s*(\d+)`, or
      None when the message is empty or nothing matches. The result, when present, is
      a non-empty run of decimal digits. */
  function ExtractOrderId(msg: string): (r: Option<string>)
    ensures r.None? <==> forall i, k, e :: !RegexMatch(msg, i, k, e)
    ensures r.Some? ==> exists i, k, e ::
      RegexMatch(msg, i, k, e) && r.value == msg[k..e] && NoMatchBetween(msg, 0, i)
    ensures r.Some? ==> 1 <= |r.value| && AllDigits(r.value)
  {
    if msg == "" then None else ScanFrom(msg, 0)
  }

  /** The backend-style message: any text without an 'I', then "ID: " and a number. */
  function MarkedMessage(prefix: string, n: nat): string {
    prefix + "ID: " + NatToString(n)
  }

  lemma MarkedMessageMatches(prefix: string, n: nat)
    ensures RegexMatch(MarkedMessage(prefix, n), |prefix|, |prefix| + 4, |MarkedMessage(prefix, n)|)
  {
    var s := MarkedMessage(prefix, n);
    assert s[|prefix|..|prefix| + 3] == Marker;
    assert s[|prefix| + 4..] == NatToString(n);
    assert s[|prefix| + 3] == ' ';
  }

  lemma MarkedMessageNoEarlierMatch(prefix: string, n: nat, i: int, k: int, e: int)
    requires forall j :: 0 <= j < |prefix| ==> prefix[j] != 'I'
    requires RegexMatch(MarkedMessage(prefix, n), i, k, e)
    ensures |prefix| <= i
  {
    var s := MarkedMessage(prefix, n);
    MatchStartsWithI(s, i, k, e);
  }

  /** Two matches starting at the same position are the same match. */
  lemma SameStartSameMatch(s: string, i: int, k: int, e: int, k': int, e': int)
    requires RegexMatch(s, i, k, e) && RegexMatch(s, i, k', e')
    ensures k == k' && e == e'
  {
    MatchShape(s, i, k, e);
    MatchShape(s, i, k', e');
  }

  /** The leftmost match starts no later than any other match. */
  lemma LeftmostNoLater(s: string, i: int, i': int, k': int, e': int)
    requires NoMatchBetween(s, 0, i) && RegexMatch(s, i', k', e')
    ensures i <= i'
  {
  }

  /** A message whose only possible "ID:" is the one placed right before the number
      yields exactly that number's digits. */
  lemma ExtractAfterMarker(prefix: string, n: nat)
    requires forall j :: 0 <= j < |prefix| ==> prefix[j] != 'I'
    ensures ExtractOrderId(MarkedMessage(prefix, n)) == Some(NatToString(n))
  {
    var s := MarkedMessage(prefix, n);
    var i0, k0 := |prefix|, |prefix| + 4;
    MarkedMessageMatches(prefix, n);
    var r := ExtractOrderId(s);
    var i, k, e :| RegexMatch(s, i, k, e) && r.value == s[k..e] && NoMatchBetween(s, 0, i);
    MarkedMessageNoEarlierMatch(prefix, n, i, k, e);
    LeftmostNoLater(s, i, i0, k0, |s|);
    SameStartSameMatch(s, i0, k, e, k0, |s|);
    assert s[k0..|s|] == NatToString(n);
  }

  /** A message with no "ID:" yields no order number. */
  lemma NoMarkerNoId(msg: string)
    requires forall j :: 0 <= j < |msg| ==> msg[j] != 'I'
    ensures ExtractOrderId(msg) == None
  {
    forall i, k, e ensures !RegexMatch(msg, i, k, e) {
      if RegexMatch(msg, i, k, e) {
        MatchStartsWithI(msg, i, k, e);
      }
    }
  }
}
