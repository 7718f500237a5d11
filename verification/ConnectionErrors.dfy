/** Classification of error texts, internal/agent/agent.go:535-563. */
module ConnectionErrors {
  import opened Common

  const PATTERNS: seq<string> := [
    "connection refused",
    "connection reset",
    "no such host",
    "timeout",
    "deadline exceeded",
    "eof",
    "network unreachable",
    "no route to host",
    "broken pipe",
    "connection timed out",
    "i/o timeout",
    "dial tcp",
    "dial udp"
  ]

  /** Unicode lower-casing as far as it can reach an ASCII letter: besides A-Z only the Kelvin
      sign and the dotted capital I do. Every other character stays outside ASCII. */
  function LowerChar(c: char): char {
    if 'A' <= c <= 'Z' then c + ('a' - 'A')
    else if c == '\U{212A}' then 'k'
    else if c == '\U{0130}' then 'i'
    else c
  }

  function ToLower(s: string): (r: string)
    ensures |r| == |s| && forall i :: 0 <= i < |s| ==> r[i] == LowerChar(s[i])
  {
    seq(|s|, i requires 0 <= i < |s| => LowerChar(s[i]))
  }

  predicate Contains(s: string, sub: string) {
    exists i :: 0 <= i <= |s| - |sub| && OccursAt(s, sub, i)
  }

  predicate OccursAt(s: string, sub: string, i: nat)
    requires i + |sub| <= |s|
  {
    s[i..i + |sub|] == sub
  }

  predicate IsConnectionText(err: string) {
    exists k :: 0 <= k < |PATTERNS| && Contains(ToLower(err), PATTERNS[k])
  }

  /** The loop of isConnectionError; a nil error is None. */
  method IsConnectionError(err: Option<string>) returns (found: bool)
    ensures found <==> err.Some? && IsConnectionText(err.value)
  {
    if err.None? {
      return false;
    }
    var text := ToLower(err.value);
    for k := 0 to |PATTERNS|
      invariant forall j :: 0 <= j < k ==> !Contains(text, PATTERNS[j])
    {
      if Contains(text, PATTERNS[k]) {
        return true;
      }
    }
    return false;
  }

  lemma ContainsInside(prefix: string, s: string, suffix: string, sub: string)
    requires Contains(s, sub)
    ensures Contains(prefix + s + suffix, sub)
  {
    var i :| 0 <= i <= |s| - |sub| && OccursAt(s, sub, i);
    var whole, at := prefix + s + suffix, |prefix| + i;
    assert whole[at..at + |sub|] == s[i..i + |sub|];
    assert OccursAt(whole, sub, at);
  }

  lemma LowerConcat(a: string, b: string)
    ensures ToLower(a + b) == ToLower(a) + ToLower(b)
  {
  }

  /** Wrapping an error in more text never hides that it is a connection error. */
  lemma WrappingKeepsConnectionErrors(prefix: string, err: string, suffix: string)
    requires IsConnectionText(err)
    ensures IsConnectionText(prefix + err + suffix)
  {
    var k :| 0 <= k < |PATTERNS| && Contains(ToLower(err), PATTERNS[k]);
    ContainsInside(ToLower(prefix), ToLower(err), ToLower(suffix), PATTERNS[k]);
    LowerConcat(prefix, err);
    LowerConcat(prefix + err, suffix);
  }

  // ---- the case of letters, and the patterns themselves ----

  predicate IsK(c: char) {
    c == 'k' || c == 'K' || c == '\U{212A}'
  }

  predicate IsI(c: char) {
    c == 'i' || c == 'I' || c == '\U{0130}'
  }

  /** The characters are the same, or the same ASCII letter in the other case; the Kelvin sign goes
      with k, and the dotted capital I with i. */
  predicate SameButCase(a: char, b: char) {
    || a == b
    || ('A' <= a <= 'Z' && b as int == a as int + 32)
    || ('a' <= a <= 'z' && b as int == a as int - 32)
    || (IsK(a) && IsK(b))
    || (IsI(a) && IsI(b))
  }

  ghost predicate SameTextButCase(a: string, b: string) {
    |a| == |b| && forall i :: 0 <= i < |a| ==> SameButCase(a[i], b[i])
  }

  lemma SameLowered(a: string, b: string)
    requires SameTextButCase(a, b)
    ensures ToLower(a) == ToLower(b)
  {
    forall i | 0 <= i < |a| ensures ToLower(a)[i] == ToLower(b)[i] {
      LoweredAlike(a[i], b[i]);
    }
  }

  /** Upper and lower case make no difference. */
  lemma CaseIsIgnored(a: string, b: string)
    requires SameTextButCase(a, b)
    ensures IsConnectionText(a) <==> IsConnectionText(b)
  {
    SameLowered(a, b);
  }

  /** The connection failures, in capitals. */
  const FAILURES: seq<string> := [
    "CONNECTION REFUSED", "CONNECTION RESET", "NO SUCH HOST", "TIMEOUT", "DEADLINE EXCEEDED", "EOF",
    "NETWORK UNREACHABLE", "NO ROUTE TO HOST", "BROKEN PIPE", "CONNECTION TIMED OUT", "I/O TIMEOUT",
    "DIAL TCP", "DIAL UDP"
  ]

  /** The word stands in the text at position i, in whatever case. */
  ghost predicate Spells(text: string, i: nat, word: string) {
    i + |word| <= |text| && SameTextButCase(text[i..i + |word|], word)
  }

  lemma LoweredAlike(c: char, d: char)
    ensures LowerChar(c) == LowerChar(d) <==> SameButCase(c, d)
  {
  }

  ghost predicate Lowered(pattern: string, word: string) {
    && SameTextButCase(pattern, word)
    && forall i :: 0 <= i < |pattern| ==> pattern[i] < '\U{80}' && !('A' <= pattern[i] <= 'Z')
  }

  lemma RefusedInCapitals()
    ensures Lowered("connection refused", "CONNECTION REFUSED")
  {
  }

  lemma ResetInCapitals()
    ensures Lowered("connection reset", "CONNECTION RESET")
  {
  }

  lemma HostInCapitals()
    ensures Lowered("no such host", "NO SUCH HOST")
  {
  }

  lemma TimeoutsInCapitals()
    ensures Lowered("timeout", "TIMEOUT")
    ensures Lowered("i/o timeout", "I/O TIMEOUT")
  {
  }

  lemma DeadlineInCapitals()
    ensures Lowered("deadline exceeded", "DEADLINE EXCEEDED")
  {
  }

  lemma EofInCapitals()
    ensures Lowered("eof", "EOF")
    ensures Lowered("broken pipe", "BROKEN PIPE")
  {
  }

  lemma NetworkInCapitals()
    ensures Lowered("network unreachable", "NETWORK UNREACHABLE")
  {
  }

  lemma RouteInCapitals()
    ensures Lowered("no route to host", "NO ROUTE TO HOST")
  {
  }

  lemma TimedOutInCapitals()
    ensures Lowered("connection timed out", "CONNECTION TIMED OUT")
  {
  }

  lemma DialInCapitals()
    ensures Lowered("dial tcp", "DIAL TCP")
    ensures Lowered("dial udp", "DIAL UDP")
  {
  }

  lemma PatternsAreFailures(k: nat)
    requires k < 13
    ensures |PATTERNS| == |FAILURES| == 13 && Lowered(PATTERNS[k], FAILURES[k])
  {
    RefusedInCapitals();
    ResetInCapitals();
    HostInCapitals();
    TimeoutsInCapitals();
    DeadlineInCapitals();
    EofInCapitals();
    NetworkInCapitals();
    RouteInCapitals();
    TimedOutInCapitals();
    DialInCapitals();
  }

  lemma SpelledOccurs(text: string, i: nat, pattern: string, word: string)
    requires Lowered(pattern, word) && i + |word| <= |text|
    ensures OccursAt(ToLower(text), pattern, i) <==> Spells(text, i, word)
  {
    forall j | 0 <= j < |word|
      ensures ToLower(text)[i + j] == pattern[j] <==> SameButCase(text[i + j], word[j])
    {
      assert SameButCase(pattern[j], word[j]);
      LoweredAlike(text[i + j], word[j]);
      LoweredAlike(pattern[j], word[j]);
    }
    var low, part := ToLower(text)[i..i + |word|], text[i..i + |word|];
    assert forall j :: 0 <= j < |word| ==> low[j] == ToLower(text)[i + j] && part[j] == text[i + j];
  }

  /** A text is a connection error exactly if it spells out one of the connection failures, in upper
      case, lower case or any mixture. */
  lemma ClassifiedExactly(text: string)
    ensures IsConnectionText(text) <==>
              exists k: nat, i: nat :: k < |FAILURES| && Spells(text, i, FAILURES[k])
  {
    if IsConnectionText(text) {
      var k :| 0 <= k < |PATTERNS| && Contains(ToLower(text), PATTERNS[k]);
      var i :| 0 <= i <= |text| - |PATTERNS[k]| && OccursAt(ToLower(text), PATTERNS[k], i);
      PatternsAreFailures(k);
      SpelledOccurs(text, i, PATTERNS[k], FAILURES[k]);
      assert Spells(text, i, FAILURES[k]);
    }
    if k: nat, i: nat :| k < |FAILURES| && Spells(text, i, FAILURES[k]) {
      PatternsAreFailures(k);
      SpelledOccurs(text, i, PATTERNS[k], FAILURES[k]);
      assert Contains(ToLower(text), PATTERNS[k]);
    }
  }

  /** "eof" is among the patterns, and Go writes it in capitals. */
  lemma UnexpectedEof()
    ensures IsConnectionText("unexpected EOF")
  {
    var text := "unexpected EOF";
    assert FAILURES[5] == "EOF" && text[11..14] == "EOF";
    assert Spells(text, 11, FAILURES[5]);
    ClassifiedExactly(text);
  }
}
