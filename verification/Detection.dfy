/** Parsing of detection-provider bodies, internal/wandns/wandns.go:318-335. */
module Detection {
  import opened Common

  // ---- text ----

  /** unicode.IsSpace */
  predicate IsSpace(c: char) {
    || '\t' <= c <= '\r' || c == ' ' || c == '\U{85}' || c == '\U{A0}'
    || c == '\U{1680}' || '\U{2000}' <= c <= '\U{200A}' || c == '\U{2028}' || c == '\U{2029}'
    || c == '\U{202F}' || c == '\U{205F}' || c == '\U{3000}'
  }

  /** The white space of Unicode, character by character. */
  const WHITE_SPACE: string := [
    '\t', '\n', '\U{B}', '\U{C}', '\r', ' ', '\U{85}', '\U{A0}', '\U{1680}',
    '\U{2000}', '\U{2001}', '\U{2002}', '\U{2003}', '\U{2004}', '\U{2005}', '\U{2006}', '\U{2007}',
    '\U{2008}', '\U{2009}', '\U{200A}', '\U{2028}', '\U{2029}', '\U{202F}', '\U{205F}', '\U{3000}'
  ]

  lemma SpacesAreWhite(c: char)
    ensures IsSpace(c) <==> c in WHITE_SPACE
  {
    var w := WHITE_SPACE;
    assert w[0] == '\t' && w[1] == '\n' && w[2] == '\U{B}' && w[3] == '\U{C}' && w[4] == '\r' && w[5] == ' ';
    assert w[6] == '\U{85}' && w[7] == '\U{A0}' && w[8] == '\U{1680}' && w[9] == '\U{2000}';
    assert w[10] == '\U{2001}' && w[11] == '\U{2002}' && w[12] == '\U{2003}' && w[13] == '\U{2004}';
    assert w[14] == '\U{2005}' && w[15] == '\U{2006}' && w[16] == '\U{2007}' && w[17] == '\U{2008}';
    assert w[18] == '\U{2009}' && w[19] == '\U{200A}' && w[20] == '\U{2028}' && w[21] == '\U{2029}';
    assert w[22] == '\U{202F}' && w[23] == '\U{205F}' && w[24] == '\U{3000}';
  }

  function TrimLeft(s: string): string {
    if s != "" && IsSpace(s[0]) then TrimLeft(s[1..]) else s
  }

  function TrimRight(s: string): string {
    if s != "" && IsSpace(s[|s| - 1]) then TrimRight(s[..|s| - 1]) else s
  }

  function TrimSpace(s: string): string {
    TrimRight(TrimLeft(s))
  }

  function IndexOf(s: string, c: char): (i: nat)
    ensures i <= |s| && c !in s[..i] && (i < |s| ==> s[i] == c && c in s)
  {
    if s == "" || s[0] == c then 0
    else
      var i := 1 + IndexOf(s[1..], c);
      assert s[..i] == [s[0]] + s[1..][..i - 1];
      i
  }

  function Split(s: string, sep: char): (parts: seq<string>)
    ensures |parts| > 0
    decreases |s|
  {
    var i := IndexOf(s, sep);
    if i == |s| then [s] else [s[..i]] + Split(s[i + 1..], sep)
  }

  function Join(parts: seq<string>, sep: char): string
    requires |parts| > 0
  {
    if |parts| == 1 then parts[0] else parts[0] + [sep] + Join(parts[1..], sep)
  }

  lemma JoinCons(first: string, rest: seq<string>, sep: char)
    requires |rest| > 0
    ensures Join([first] + rest, sep) == first + [sep] + Join(rest, sep)
  {
    assert ([first] + rest)[1..] == rest;
  }

  lemma CutAt(s: string, i: nat)
    requires i < |s|
    ensures s[..i] + [s[i]] + s[i + 1..] == s
  {
  }

  lemma {:induction false} JoinSplit(s: string, sep: char)
    ensures Join(Split(s, sep), sep) == s
    decreases |s|
  {
    var i := IndexOf(s, sep);
    if i < |s| {
      JoinSplit(s[i + 1..], sep);
      JoinCons(s[..i], Split(s[i + 1..], sep), sep);
      CutAt(s, i);
    }
  }

  lemma {:induction false} IndexOfPrefix(a: string, sep: char, rest: string)
    requires sep !in a
    ensures IndexOf(a + [sep] + rest, sep) == |a|
  {
    var s := a + [sep] + rest;
    if a != "" {
      IndexOfPrefix(a[1..], sep, rest);
      assert s[1..] == a[1..] + [sep] + rest;
    }
  }

  lemma SplitFirst(a: string, sep: char, rest: string)
    requires sep !in a
    ensures Split(a + [sep] + rest, sep) == [a] + Split(rest, sep)
  {
    var s := a + [sep] + rest;
    IndexOfPrefix(a, sep, rest);
    assert s[..|a|] == a && s[|a| + 1..] == rest;
  }

  lemma SplitWhole(s: string, sep: char)
    requires sep !in s
    ensures Split(s, sep) == [s]
  {
  }

  lemma SplitJoinCons(first: string, rest: seq<string>, sep: char)
    requires |rest| > 0 && sep !in first && Split(Join(rest, sep), sep) == rest
    ensures Split(Join([first] + rest, sep), sep) == [first] + rest
  {
    JoinCons(first, rest, sep);
    SplitFirst(first, sep, Join(rest, sep));
  }

  lemma HeadAndTail<T>(s: seq<T>)
    requires |s| > 0
    ensures [s[0]] + s[1..] == s
  {
  }

  lemma {:induction false} SplitJoin(parts: seq<string>, sep: char)
    requires |parts| > 0 && forall p :: p in parts ==> sep !in p
    ensures Split(Join(parts, sep), sep) == parts
  {
    HeadAndTail(parts);
    if |parts| == 1 {
      SplitWhole(parts[0], sep);
    } else {
      SplitJoin(parts[1..], sep);
      SplitJoinCons(parts[0], parts[1..], sep);
    }
  }

  // ---- decimal numbers ----

  predicate IsDigit(c: char) {
    '0' <= c <= '9'
  }

  function DigitValue(c: char): (d: nat)
    requires IsDigit(c)
    ensures d < 10 && Digit(d) == c
  {
    c as int - '0' as int
  }

  predicate AllDigits(s: string) {
    forall i :: 0 <= i < |s| ==> IsDigit(s[i])
  }

  function Value(s: string): nat
    requires AllDigits(s)
  {
    if s == "" then 0 else Value(s[..|s| - 1]) * 10 + DigitValue(s[|s| - 1])
  }

  /** Digits only, at least one, and no leading zero. */
  predicate Canonical(s: string) {
    s != "" && AllDigits(s) && (s[0] == '0' ==> |s| == 1)
  }

  lemma {:induction false} DecimalIsCanonical(n: nat)
    ensures Canonical(Decimal(n)) && Value(Decimal(n)) == n
    ensures n > 0 ==> Decimal(n)[0] != '0'
  {
    if n >= 10 {
      DecimalIsCanonical(n / 10);
      assert Decimal(n)[..|Decimal(n)| - 1] == Decimal(n / 10);
    } else {
      assert Decimal(n)[..0] == "";
    }
  }

  lemma {:induction false} CanonicalIsDecimal(s: string)
    requires Canonical(s)
    ensures Decimal(Value(s)) == s
    ensures s[0] != '0' ==> Value(s) > 0
  {
    var last := |s| - 1;
    var d := DigitValue(s[last]);
    if last == 0 {
      assert s[..0] == "" && Value(s) == d;
    } else {
      CanonicalIsDecimal(s[..last]);
      assert Value(s) == Value(s[..last]) * 10 + d;
      assert Value(s) / 10 == Value(s[..last]) && Value(s) % 10 == d;
      assert s == s[..last] + [s[last]];
    }
  }

  // ---- dotted quads ----

  type byte = b: int | 0 <= b < 256

  datatype Quad = Quad(a: byte, b: byte, c: byte, d: byte)

  function Print(q: Quad): string {
    Join([Decimal(q.a), Decimal(q.b), Decimal(q.c), Decimal(q.d)], '.')
  }

  predicate IsOctet(s: string) {
    Canonical(s) && Value(s) < 256
  }

  /** net.ParseIP on text without a colon, for addresses with a 4-byte form. */
  function ParseQuad(s: string): Option<Quad> {
    var f := Split(s, '.');
    if |f| == 4 && IsOctet(f[0]) && IsOctet(f[1]) && IsOctet(f[2]) && IsOctet(f[3])
    then Some(Quad(Value(f[0]), Value(f[1]), Value(f[2]), Value(f[3])))
    else None
  }

  /** Printing and strict parsing are inverse to each other: exactly the canonical texts parse. */
  lemma ParsePrint(s: string, q: Quad)
    ensures ParseQuad(s) == Some(q) <==> s == Print(q)
  {
    if ParseQuad(s).Some? {
      var f := Split(s, '.');
      JoinSplit(s, '.');
      assert f == [f[0], f[1], f[2], f[3]];
      CanonicalIsDecimal(f[0]);
      CanonicalIsDecimal(f[1]);
      CanonicalIsDecimal(f[2]);
      CanonicalIsDecimal(f[3]);
    }
    PrintParses(q);
  }

  lemma PrintParses(q: Quad)
    ensures ParseQuad(Print(q)) == Some(q)
  {
    DecimalIsCanonical(q.a);
    DecimalIsCanonical(q.b);
    DecimalIsCanonical(q.c);
    DecimalIsCanonical(q.d);
    SplitJoin([Decimal(q.a), Decimal(q.b), Decimal(q.c), Decimal(q.d)], '.');
  }

  const DIGITS: string := "0123456789"

  /** A number below 256 in decimal, digit by digit. */
  function Octet(n: byte): string {
    if n < 10 then [DIGITS[n]]
    else if n < 100 then [DIGITS[n / 10], DIGITS[n % 10]]
    else [DIGITS[n / 100], DIGITS[n / 10 % 10], DIGITS[n % 10]]
  }

  lemma DigitsInOrder(d: nat)
    requires d < 10
    ensures Digit(d) == DIGITS[d]
  {
    var w := DIGITS;
    assert w[0] == '0' && w[1] == '1' && w[2] == '2' && w[3] == '3' && w[4] == '4';
    assert w[5] == '5' && w[6] == '6' && w[7] == '7' && w[8] == '8' && w[9] == '9';
  }

  lemma DecimalStep(n: nat)
    requires n >= 10
    ensures Decimal(n) == Decimal(n / 10) + [Digit(n % 10)]
  {
  }

  lemma OctetIsDecimal(n: byte)
    ensures Decimal(n) == Octet(n)
  {
    DigitsInOrder(n % 10);
    if n >= 10 {
      DecimalStep(n);
      DigitsInOrder(n / 10 % 10);
    }
    if n >= 100 {
      DecimalStep(n / 10);
      DigitsInOrder(n / 100);
      assert n / 10 / 10 == n / 100;
    }
  }

  /** An address is printed as its four bytes in decimal, with dots between them. */
  lemma PrintedDotted(q: Quad)
    ensures Print(q) == Octet(q.a) + "." + Octet(q.b) + "." + Octet(q.c) + "." + Octet(q.d)
  {
    OctetIsDecimal(q.a);
    OctetIsDecimal(q.b);
    OctetIsDecimal(q.c);
    OctetIsDecimal(q.d);
    JoinFour(Octet(q.a), Octet(q.b), Octet(q.c), Octet(q.d));
  }

  lemma JoinFour(a: string, b: string, c: string, d: string)
    ensures Join([a, b, c, d], '.') == a + "." + b + "." + c + "." + d
  {
    assert [a, b, c, d][1..] == [b, c, d] && [b, c, d][1..] == [c, d] && [c, d][1..] == [d];
    assert Join([c, d], '.') == c + ['.'] + d;
    assert Join([b, c, d], '.') == b + ['.'] + Join([c, d], '.');
    assert a + ['.'] + (b + ['.'] + (c + ['.'] + d)) == a + "." + b + "." + c + "." + d;
  }

  // ---- bodies ----

  /** The address in a trace line, if it is one. */
  function LineAddress(line: string): Option<Quad> {
    if "ip=" <= line then ParseQuad(TrimSpace(line[3..])) else None
  }

  function FirstAddress(lines: seq<string>): Option<Quad> {
    if lines == [] then None
    else if LineAddress(lines[0]).Some? then LineAddress(lines[0])
    else FirstAddress(lines[1..])
  }

  function Lines(text: string): seq<string> {
    Split(text, '\n')
  }

  function TextAddress(text: string): Option<Quad> {
    if ParseQuad(text).Some? then ParseQuad(text) else FirstAddress(Lines(text))
  }

  function BodyAddress(body: string): Option<Quad> {
    TextAddress(TrimSpace(body))
  }

  /** Returns the canonical text of the whole trimmed body, or else of the first trace line that
      carries an address, and fails only if there is neither. */
  method ParseDetectionBody(body: string) returns (ip: Option<string>)
    ensures ip.Some? <==> BodyAddress(body).Some?
    ensures ip.Some? ==> ip.value == Print(BodyAddress(body).value)
  {
    var text := TrimSpace(body);
    var whole := ParseQuad(text);
    if whole.Some? {
      return Some(Print(whole.value));
    }
    var lines := Lines(text);
    for k := 0 to |lines|
      invariant FirstAddress(lines) == FirstAddress(lines[k..])
    {
      if "ip=" <= lines[k] {
        var candidate := ParseQuad(TrimSpace(lines[k][3..]));
        if candidate.Some? {
          return Some(Print(candidate.value));
        }
      }
    }
    return None;
  }

  lemma {:induction false} JoinEndsLast(parts: seq<string>, sep: char)
    requires |parts| > 0 && parts[|parts| - 1] != ""
    ensures var s, last := Join(parts, sep), parts[|parts| - 1];
            s != "" && s[|s| - 1] == last[|last| - 1]
  {
    if |parts| > 1 {
      JoinEndsLast(parts[1..], sep);
    }
  }

  lemma JoinEnds(parts: seq<string>, sep: char)
    requires |parts| > 0 && parts[0] != "" && parts[|parts| - 1] != ""
    ensures var s, last := Join(parts, sep), parts[|parts| - 1];
            s != "" && s[0] == parts[0][0] && s[|s| - 1] == last[|last| - 1]
  {
    JoinEndsLast(parts, sep);
  }

  lemma PrintEnds(q: Quad)
    ensures var s := Print(q); s != "" && !IsSpace(s[0]) && !IsSpace(s[|s| - 1])
  {
    var first, last := Decimal(q.a), Decimal(q.d);
    DecimalIsCanonical(q.a);
    DecimalIsCanonical(q.d);
    assert IsDigit(first[0]) && IsDigit(last[|last| - 1]);
    JoinEnds([first, Decimal(q.b), Decimal(q.c), last], '.');
  }

  predicate AllSpace(s: string) {
    forall i :: 0 <= i < |s| ==> IsSpace(s[i])
  }

  lemma {:induction false} TrimLeftDrops(left: string, s: string)
    requires AllSpace(left) && s != "" && !IsSpace(s[0])
    ensures TrimLeft(left + s) == s
  {
    if left == "" {
      assert left + s == s;
    } else {
      assert (left + s)[1..] == left[1..] + s;
      TrimLeftDrops(left[1..], s);
    }
  }

  lemma {:induction false} TrimRightDrops(s: string, right: string)
    requires AllSpace(right) && s != "" && !IsSpace(s[|s| - 1])
    ensures TrimRight(s + right) == s
  {
    if right == "" {
      assert s + right == s;
    } else {
      assert (s + right)[..|s + right| - 1] == s + right[..|right| - 1];
      TrimRightDrops(s, right[..|right| - 1]);
    }
  }

  /** A body that is an address, with any white space around it, yields that address. In particular
      parsing its own output changes nothing. */
  lemma PlainBodyRoundTrips(left: string, q: Quad, right: string)
    requires forall c :: c in left + right ==> c in WHITE_SPACE
    ensures BodyAddress(left + Print(q) + right) == Some(q)
  {
    forall c | c in left + right ensures IsSpace(c) {
      SpacesAreWhite(c);
    }
    assert AllSpace(left) && AllSpace(right) by {
      assert forall c :: c in left || c in right ==> c in left + right;
    }
    var text := Print(q);
    PrintEnds(q);
    assert left + text + right == left + (text + right);
    TrimLeftDrops(left, text + right);
    TrimRightDrops(text, right);
    PrintParses(q);
  }

  /** Some line carries the address, and no line before it carries any. */
  ghost predicate CarriedBy(lines: seq<string>, q: Quad, k: nat) {
    && k < |lines| && "ip=" <= lines[k] && TrimSpace(lines[k][3..]) == Print(q)
    && forall j :: 0 <= j < k ==> LineAddress(lines[j]).None?
  }

  lemma {:induction false} FirstLineWins(lines: seq<string>, q: Quad)
    ensures FirstAddress(lines) == Some(q) <==> exists k: nat :: CarriedBy(lines, q, k)
  {
    if lines != [] {
      var rest := lines[1..];
      FirstLineWins(rest, q);
      if "ip=" <= lines[0] {
        ParsePrint(TrimSpace(lines[0][3..]), q);
      }
      if LineAddress(lines[0]).Some? {
        assert FirstAddress(lines) == Some(q) ==> CarriedBy(lines, q, 0);
      } else {
        if k: nat :| CarriedBy(rest, q, k) {
          assert lines[k + 1] == rest[k];
          assert forall j :: 0 < j <= k ==> lines[j] == rest[j - 1];
          assert CarriedBy(lines, q, k + 1);
        }
        if k: nat :| CarriedBy(lines, q, k) {
          assert lines[k] == rest[k - 1];
          assert forall j :: 0 <= j < k - 1 ==> rest[j] == lines[j + 1];
          assert CarriedBy(rest, q, k - 1);
        }
      }
    }
  }

  ghost predicate IsAddress(text: string) {
    exists q :: text == Print(q)
  }

  lemma AddressParses(text: string)
    ensures ParseQuad(text).Some? <==> IsAddress(text)
  {
    if ParseQuad(text).Some? {
      ParsePrint(text, ParseQuad(text).value);
    }
    if q :| text == Print(q) {
      ParsePrint(text, q);
    }
  }

  lemma FoundInText(text: string, q: Quad)
    ensures IsAddress(text) ==> (TextAddress(text) == Some(q) <==> text == Print(q))
  {
    AddressParses(text);
    ParsePrint(text, q);
  }

  lemma FoundInLines(text: string, q: Quad)
    ensures !IsAddress(text) ==>
              (TextAddress(text) == Some(q) <==> exists k: nat :: CarriedBy(Lines(text), q, k))
  {
    AddressParses(text);
    FirstLineWins(Lines(text), q);
  }

  /** An address is extracted exactly if the trimmed body is its canonical text, or else the first
      line that carries an address is "ip=" followed by that text in white space. */
  lemma ExtractedExactly(body: string, q: Quad)
    ensures BodyAddress(body) == Some(q) <==>
              if IsAddress(TrimSpace(body)) then TrimSpace(body) == Print(q)
              else exists k: nat :: CarriedBy(Lines(TrimSpace(body)), q, k)
  {
    FoundInText(TrimSpace(body), q);
    FoundInLines(TrimSpace(body), q);
  }
}
