/**
 * The Python string primitives the application relies on, as total functions
 * on `seq<char>`: white space and case, `strip`, `split`, `splitlines`,
 * `join`, order-keeping de-duplication, decimal conversion, `int(...)`, and
 * the "fill a dict from parsed lines, later lines win" loop shape.
 */
module Text {
  import opened Wrappers

  // ------------------------------------------------------------------
  // Character classes
  // ------------------------------------------------------------------

  /** `str.isspace()`: Unicode white space plus the separators U+001C..U+001F. */
  predicate IsSpace(c: char) {
    c == ' ' || '\t' <= c <= '\r' || '\U{1C}' <= c <= '\U{1F}' || c == '\U{85}' || c == '\U{A0}'
    || c == '\U{1680}' || '\U{2000}' <= c <= '\U{200A}' || c == '\U{2028}' || c == '\U{2029}'
    || c == '\U{202F}' || c == '\U{205F}' || c == '\U{3000}'
  }

  predicate NotSpace(c: char) { !IsSpace(c) }

  /** An ASCII digit, as matched by the regular expression class `[0-9]`. */
  predicate IsDigit(c: char) { '0' <= c <= '9' }

  predicate AllDigits(s: string) { forall k :: 0 <= k < |s| ==> IsDigit(s[k]) }

  /** The characters `str.splitlines()` breaks on. */
  predicate IsLineBreak(c: char) {
    c == '\n' || c == '\r' || c == '\U{0B}' || c == '\U{0C}' || '\U{1C}' <= c <= '\U{1E}'
    || c == '\U{85}' || c == '\U{2028}' || c == '\U{2029}'
  }

  /**
   * `str.lower()` on one character, for ASCII and the Latin-1 letters
   * (U+00C0..U+00DE except the multiplication sign).
   */
  function LowerChar(c: char): char {
    if 'A' <= c <= 'Z' || ('\U{C0}' <= c <= '\U{DE}' && c != '\U{D7}') then (c as int + 32) as char else c
  }

  /** `str.upper()` on one character, for ASCII and the Latin-1 letters (U+00E0..U+00FE except the division sign). */
  function UpperChar(c: char): char {
    if 'a' <= c <= 'z' || ('\U{E0}' <= c <= '\U{FE}' && c != '\U{F7}') then (c as int - 32) as char else c
  }

  function Lower(s: string): (r: string)
    ensures |r| == |s|
    ensures forall k :: 0 <= k < |s| ==> r[k] == LowerChar(s[k])
  {
    seq(|s|, k requires 0 <= k < |s| => LowerChar(s[k]))
  }

  function Upper(s: string): (r: string)
    ensures |r| == |s|
    ensures forall k :: 0 <= k < |s| ==> r[k] == UpperChar(s[k])
  {
    seq(|s|, k requires 0 <= k < |s| => UpperChar(s[k]))
  }

  // ------------------------------------------------------------------
  // strip
  // ------------------------------------------------------------------

  /** Index of the first character that is not white space (|s| when there is none). */
  function StripStart(s: string): (i: nat)
    ensures i <= |s|
    ensures forall k :: 0 <= k < i ==> IsSpace(s[k])
    ensures i < |s| ==> !IsSpace(s[i])
  {
    if s == [] || !IsSpace(s[0]) then 0 else 1 + StripStart(s[1..])
  }

  /** One past the last character that is not white space (0 when there is none). */
  function StripEnd(s: string): (j: nat)
    ensures j <= |s|
    ensures forall k :: j <= k < |s| ==> IsSpace(s[k])
    ensures j > 0 ==> !IsSpace(s[j - 1])
  {
    if s == [] || !IsSpace(s[|s| - 1]) then |s| else StripEnd(s[..|s| - 1])
  }

  /** `str.strip()`: `s` without its leading and trailing white space. */
  function Strip(s: string): (r: string)
    ensures r == [] <==> forall k :: 0 <= k < |s| ==> IsSpace(s[k])
    ensures r != [] ==> NotSpace(r[0]) && NotSpace(r[|r| - 1])
    ensures r != [] ==> r == s[StripStart(s)..StripEnd(s)]
  {
    var i, j := StripStart(s), StripEnd(s);
    if i < j then s[i..j] else []
  }

  lemma StripNoSpace(s: string)
    requires s != [] && NotSpace(s[0]) && NotSpace(s[|s| - 1])
    ensures StripStart(s) == 0 && StripEnd(s) == |s|
    ensures Strip(s) == s
  {
    assert StripStart(s) == 0;
    assert StripEnd(s) == |s|;
  }

  // ------------------------------------------------------------------
  // split, join, splitlines
  // ------------------------------------------------------------------

  function IndexOf(s: string, c: char): (r: Option<nat>)
    ensures r.None? <==> c !in s
    ensures r.Some? ==> r.value < |s| && s[r.value] == c && c !in s[..r.value]
  {
    if s == [] then None
    else if s[0] == c then Some(0)
    else match IndexOf(s[1..], c)
      case None => None
      case Some(i) => assert s[..i + 1] == [s[0]] + s[1..][..i]; Some(i + 1)
  }

  /** `s.split(c, 1)` when `c` occurs in `s`: the text before and after its first occurrence. */
  function SplitFirst(s: string, c: char): (r: Option<(string, string)>)
    ensures r.None? <==> c !in s
    ensures r.Some? ==> r.value.0 + [c] + r.value.1 == s && c !in r.value.0
  {
    match IndexOf(s, c)
    case None => None
    case Some(i) => assert s == s[..i] + [c] + s[i + 1..]; Some((s[..i], s[i + 1..]))
  }

  /** `sep.join(parts)`. */
  function JoinWith(sep: string, parts: seq<string>): string
  {
    if parts == [] then [] else if |parts| == 1 then parts[0] else parts[0] + sep + JoinWith(sep, parts[1..])
  }

  /** `s.split(c)` for a one-character separator: every piece, empty ones included. */
  function SplitOn(s: string, c: char): (parts: seq<string>)
    decreases |s|
    ensures |parts| >= 1
    ensures forall k :: 0 <= k < |parts| ==> c !in parts[k]
    ensures JoinWith([c], parts) == s
  {
    match SplitFirst(s, c)
    case None => [s]
    case Some((a, b)) =>
      var rest := SplitOn(b, c);
      assert ([a] + rest)[1..] == rest;
      [a] + rest
  }

  /** A text splits in only one way around the first occurrence of `c`. */
  lemma FirstSepUnique(a: string, b: string, p: string, q: string, c: char)
    requires a + [c] + b == p + [c] + q && c !in a && c !in p
    ensures a == p && b == q
  {
    var s := a + [c] + b;
    assert s[|a|] == c && s[|p|] == c;
    assert forall i :: 0 <= i < |a| ==> s[i] == a[i];
    assert forall i :: 0 <= i < |p| ==> s[i] == p[i];
    assert a == s[..|a|] && p == s[..|p|];
    assert b == s[|a| + 1..] && q == s[|p| + 1..];
  }

  /** Splitting at `c` undoes joining with `c` when no part contains `c`. */
  lemma {:induction false} SplitOnJoin(parts: seq<string>, c: char)
    requires parts != [] && forall k :: 0 <= k < |parts| ==> c !in parts[k]
    ensures SplitOn(JoinWith([c], parts), c) == parts
  {
    if |parts| > 1 {
      var rest := JoinWith([c], parts[1..]);
      var s := JoinWith([c], parts);
      assert s == parts[0] + [c] + rest;
      var (a, b) := SplitFirst(s, c).value;
      FirstSepUnique(a, b, parts[0], rest, c);
      SplitOnJoin(parts[1..], c);
      assert SplitOn(s, c) == [parts[0]] + parts[1..];
    }
  }

  /** The joined text starts with the first part. */
  lemma JoinWithStarts(sep: string, parts: seq<string>)
    requires parts != []
    ensures |JoinWith(sep, parts)| >= |parts[0]| && JoinWith(sep, parts)[..|parts[0]|] == parts[0]
  {
    if |parts| > 1 {
      assert JoinWith(sep, parts) == parts[0] + (sep + JoinWith(sep, parts[1..]));
    }
  }

  /** Index of the first line break in `s` (|s| when there is none). */
  function LineEnd(s: string): (i: nat)
    ensures i <= |s|
    ensures forall k :: 0 <= k < i ==> !IsLineBreak(s[k])
    ensures i < |s| ==> IsLineBreak(s[i])
  {
    if s == [] || IsLineBreak(s[0]) then 0 else 1 + LineEnd(s[1..])
  }

  /**
   * `str.splitlines()`: the lines of `s` without their terminators; "\r\n"
   * is one terminator, and a final terminator does not open an empty line.
   */
  function SplitLines(s: string): (lines: seq<string>)
    decreases |s|
    ensures lines == [] <==> s == []
    ensures |lines| <= |s|
    ensures forall k, m :: 0 <= k < |lines| && 0 <= m < |lines[k]| ==> !IsLineBreak(lines[k][m])
  {
    if s == [] then []
    else
      var i := LineEnd(s);
      if i == |s| then [s]
      else
        var skip := if s[i] == '\r' && i + 1 < |s| && s[i + 1] == '\n' then 2 else 1;
        [s[..i]] + SplitLines(s[i + skip..])
  }

  // ------------------------------------------------------------------
  // Maximal runs: `str.split()` and `re.findall("[class]+", s)`
  // ------------------------------------------------------------------

  function RunLength(s: string, inRun: char -> bool): (n: nat)
    ensures n <= |s|
    ensures forall k :: 0 <= k < n ==> inRun(s[k])
    ensures n < |s| ==> !inRun(s[n])
  {
    if s == [] || !inRun(s[0]) then 0 else 1 + RunLength(s[1..], inRun)
  }

  /** The run length is the first position outside the run. */
  lemma RunLengthIs(s: string, inRun: char -> bool, n: nat)
    requires n <= |s|
    requires forall k :: 0 <= k < n ==> inRun(s[k])
    requires n < |s| ==> !inRun(s[n])
    ensures RunLength(s, inRun) == n
  {
  }

  /** The maximal non-empty runs of characters satisfying `inRun`, left to right. */
  function Runs(s: string, inRun: char -> bool): (rs: seq<string>)
    decreases |s|
    ensures forall k :: 0 <= k < |rs| ==> rs[k] != []
    ensures forall k, m :: 0 <= k < |rs| && 0 <= m < |rs[k]| ==> inRun(rs[k][m])
  {
    if s == [] then []
    else if !inRun(s[0]) then Runs(s[1..], inRun)
    else
      var n := RunLength(s, inRun);
      [s[..n]] + Runs(s[n..], inRun)
  }

  /** `str.split()` with no separator: the white-space separated words. */
  function Words(s: string): seq<string> {
    Runs(s, NotSpace)
  }

  lemma RunLengthOfPrefix(w: string, t: string, inRun: char -> bool)
    requires forall k :: 0 <= k < |w| ==> inRun(w[k])
    requires t != [] && !inRun(t[0])
    ensures RunLength(w + t, inRun) == |w|
  {
    var s := w + t;
    assert s[|w|] == t[0];
    assert forall k :: 0 <= k < |w| ==> s[k] == w[k];
  }

  /** Joining well-formed runs with a separator outside the class and splitting again gives the runs back. */
  lemma {:induction false} RunsOfJoin(ws: seq<string>, inRun: char -> bool)
    requires !inRun(' ')
    requires forall k :: 0 <= k < |ws| ==> ws[k] != []
    requires forall k, m :: 0 <= k < |ws| && 0 <= m < |ws[k]| ==> inRun(ws[k][m])
    ensures Runs(JoinWith(" ", ws), inRun) == ws
  {
    if ws == [] {
    } else if |ws| == 1 {
      var w := ws[0];
      assert w[0] == ws[0][0];
      assert forall k :: 0 <= k < |w| ==> inRun(w[k]) by {
        forall k | 0 <= k < |w| ensures inRun(w[k]) { assert w[k] == ws[0][k]; }
      }
      assert RunLength(w, inRun) == |w|;
      assert w[..|w|] == w && w[|w|..] == [];
      assert Runs(w, inRun) == [w[..|w|]] + Runs(w[|w|..], inRun);
      assert JoinWith(" ", ws) == w;
    } else {
      var w, rest := ws[0], ws[1..];
      var j := JoinWith(" ", rest);
      var s := w + " " + j;
      assert JoinWith(" ", ws) == s;
      assert forall k :: 0 <= k < |w| ==> inRun(w[k]) by {
        forall k | 0 <= k < |w| ensures inRun(w[k]) { assert w[k] == ws[0][k]; }
      }
      RunLengthOfPrefix(w, " " + j, inRun);
      assert s == w + (" " + j);
      assert s[0] == w[0] && inRun(s[0]);
      assert s[..|w|] == w;
      assert s[|w|..] == " " + j;
      assert Runs(" " + j, inRun) == Runs(j, inRun) by {
        assert (" " + j)[1..] == j;
      }
      forall k | 0 <= k < |rest| ensures rest[k] != [] { assert rest[k] == ws[k + 1]; }
      forall k, m | 0 <= k < |rest| && 0 <= m < |rest[k]| ensures inRun(rest[k][m]) {
        assert rest[k] == ws[k + 1];
      }
      RunsOfJoin(rest, inRun);
      assert [w] + rest == ws;
    }
  }

  // ------------------------------------------------------------------
  // Order-keeping de-duplication (first occurrence wins)
  // ------------------------------------------------------------------

  predicate Distinct<T(==)>(s: seq<T>) {
    forall i, j :: 0 <= i < j < |s| ==> s[i] != s[j]
  }

  /** The elements of `s` in order of first occurrence, each once (a loop over `s` with a `seen` set). */
  function Dedup<T(==,!new)>(s: seq<T>): (r: seq<T>)
    ensures forall x :: x in r <==> x in s
    ensures Distinct(r)
    ensures |r| <= |s|
  {
    if s == [] then []
    else
      var p := Dedup(s[..|s| - 1]);
      if s[|s| - 1] in s[..|s| - 1] then p
      else
        assert forall x :: x in p ==> x in s[..|s| - 1];
        p + [s[|s| - 1]]
  }

  /** Later elements never move earlier ones: de-duplicating a prefix gives a prefix. */
  lemma {:induction false} DedupPrefix<T(!new)>(s: seq<T>, n: nat)
    requires n <= |s|
    ensures Dedup(s[..n]) <= Dedup(s)
    decreases |s| - n
  {
    if n < |s| {
      assert s[..|s| - 1][..n] == s[..n];
      DedupPrefix(s[..|s| - 1], n);
      assert s[..|s|] == s;
    } else {
      assert s[..n] == s;
    }
  }

  /** Appending elements that were already present changes nothing. */
  lemma {:induction false} DedupAbsorbs<T(!new)>(s: seq<T>, t: seq<T>)
    requires forall x :: x in t ==> x in s
    ensures Dedup(s + t) == Dedup(s)
    decreases |t|
  {
    if t != [] {
      var u := s + t;
      var t' := t[..|t| - 1];
      var last := t[|t| - 1];
      assert u[..|u| - 1] == s + t';
      assert u[|u| - 1] == last;
      assert last in s by {
        assert last in t;
      }
      var k :| 0 <= k < |s| && s[k] == last;
      assert (s + t')[k] == last;
      forall x | x in t' ensures x in s {
        var i :| 0 <= i < |t'| && t'[i] == x;
        assert t[i] == x;
      }
      DedupAbsorbs(s, t');
    } else {
      assert s + t == s;
    }
  }

  // ------------------------------------------------------------------
  // Decimal numbers: `str(n)` and `int(text)`
  // ------------------------------------------------------------------

  function DigitChar(d: nat): (c: char)
    requires d < 10
    ensures IsDigit(c)
  {
    ('0' as int + d) as char
  }

  function DigitValue(c: char): (d: nat)
    requires IsDigit(c)
    ensures d < 10
  {
    c as int - '0' as int
  }

  /** `str(n)` for a non-negative integer. */
  function NatToDecimal(n: nat): (r: string)
    ensures r != [] && AllDigits(r)
  {
    if n < 10 then [DigitChar(n)] else NatToDecimal(n / 10) + [DigitChar(n % 10)]
  }

  /** The value of a run of ASCII digits, leading zeros allowed. */
  function DecimalValue(s: string): nat
    requires AllDigits(s)
  {
    if s == [] then 0 else DecimalValue(s[..|s| - 1]) * 10 + DigitValue(s[|s| - 1])
  }

  lemma {:induction false} DecimalRoundTrip(n: nat)
    ensures DecimalValue(NatToDecimal(n)) == n
  {
    if n >= 10 {
      var r := NatToDecimal(n);
      assert r[..|r| - 1] == NatToDecimal(n / 10);
      DecimalRoundTrip(n / 10);
    }
  }

  /** Distinct numbers have distinct decimal forms. */
  lemma DecimalInjective(i: nat, j: nat)
    requires NatToDecimal(i) == NatToDecimal(j)
    ensures i == j
  {
    DecimalRoundTrip(i);
    DecimalRoundTrip(j);
  }

  /** `str(n)` for any integer. */
  function IntToString(n: int): string {
    if n < 0 then "-" + NatToDecimal(-n) else NatToDecimal(n)
  }

  /**
   * The white space `int()` skips around its digits: that of `str.isspace()`
   * except the ASCII separators U+001C..U+001F, which `int()` rejects.
   */
  predicate IsIntSpace(c: char) { IsSpace(c) && !('\U{1C}' <= c <= '\U{1F}') }

  /** Everything `Strip` removes from `s` is white space `int()` skips. */
  predicate IntMargins(s: string) {
    && (forall k :: 0 <= k < StripStart(s) ==> IsIntSpace(s[k]))
    && (forall k :: StripEnd(s) <= k < |s| ==> IsIntSpace(s[k]))
  }

  /**
   * `int(s)` for a string: surrounding white space, an optional sign and at
   * least one ASCII digit; `None` where Python raises `ValueError`.
   */
  function ParseInt(s: string): Option<int> {
    var t := Strip(s);
    if !IntMargins(s) then None
    else if t != [] && (t[0] == '-' || t[0] == '+') then
      var body := t[1..];
      if body != [] && AllDigits(body) then
        var v: int := DecimalValue(body);
        Some(if t[0] == '-' then -v else v)
      else None
    else if t != [] && AllDigits(t) then Some(DecimalValue(t))
    else None
  }

  /** `int(str(n)) == n`. */
  lemma ParseIntRoundTrip(n: int)
    ensures ParseInt(IntToString(n)) == Some(n)
  {
    var s := IntToString(n);
    if n < 0 {
      var d := NatToDecimal(-n);
      assert s[0] == '-' && s[1..] == d;
      assert IsDigit(d[|d| - 1]);
      StripNoSpace(s);
      DecimalRoundTrip(-n);
    } else {
      assert IsDigit(s[0]) && IsDigit(s[|s| - 1]);
      StripNoSpace(s);
      DecimalRoundTrip(n);
    }
  }

  /** A leading separator U+001C makes `int()` fail; a leading no-break space is skipped. */
  lemma ParseIntSeparators()
    ensures ParseInt("\U{1C}7") == None
    ensures ParseInt("\U{A0}7") == Some(7)
  {
    var bad, ok := "\U{1C}7", "\U{A0}7";
    assert StripStart(bad[1..]) == 0;
    assert StripStart(bad) == 1 && !IsIntSpace(bad[0]);
    assert StripStart(ok[1..]) == 0 && StripStart(ok) == 1;
    assert StripEnd(ok) == 2;
    assert Strip(ok) == "7";
    assert DecimalValue("7") == 7;
  }

  // ------------------------------------------------------------------
  // Substrings
  // ------------------------------------------------------------------

  /** `pat in s` for strings. */
  predicate Contains(s: string, pat: string)
    decreases |s|
  {
    pat <= s || (s != [] && Contains(s[1..], pat))
  }

  // ------------------------------------------------------------------
  // A dict filled from parsed lines
  // ------------------------------------------------------------------

  /** Line `i` of `lines` parses to a pair whose key is `k`. */
  predicate DefinesKey<T, K(==), V>(lines: seq<T>, parse: T -> Option<(K, V)>, i: int, k: K) {
    0 <= i < |lines| && parse(lines[i]).Some? && parse(lines[i]).value.0 == k
  }

  /**
   * The dict a loop builds when it parses every line and stores each pair
   * it gets with `d[key] = value`.
   */
  function CollectPairs<T, K(==), V>(lines: seq<T>, parse: T -> Option<(K, V)>): map<K, V>
  {
    if lines == [] then map[]
    else
      var m := CollectPairs(lines[..|lines| - 1], parse);
      match parse(lines[|lines| - 1])
      case None => m
      case Some((k, v)) => m[k := v]
  }

  /** One more line: the map it defines is the previous one updated by that line's pair, if any. */
  lemma CollectPairsSnoc<T, K, V>(lines: seq<T>, parse: T -> Option<(K, V)>, i: nat)
    requires i < |lines|
    ensures CollectPairs(lines[..i + 1], parse) ==
      if parse(lines[i]).None? then CollectPairs(lines[..i], parse)
      else CollectPairs(lines[..i], parse)[parse(lines[i]).value.0 := parse(lines[i]).value.1]
  {
    assert lines[..i + 1][..i] == lines[..i];
  }

  /** A key is present exactly when some line defines it. */
  lemma {:induction false} CollectPairsKeys<T, K, V>(lines: seq<T>, parse: T -> Option<(K, V)>, k: K)
    ensures k in CollectPairs(lines, parse) <==> exists i :: DefinesKey(lines, parse, i, k)
  {
    if lines != [] {
      var init := lines[..|lines| - 1];
      CollectPairsKeys(init, parse, k);
      if exists i :: DefinesKey(init, parse, i, k) {
        var i :| DefinesKey(init, parse, i, k);
        assert DefinesKey(lines, parse, i, k);
      }
      if exists i :: DefinesKey(lines, parse, i, k) {
        var i :| DefinesKey(lines, parse, i, k);
        if i < |lines| - 1 {
          assert DefinesKey(init, parse, i, k);
        }
      }
      if DefinesKey(lines, parse, |lines| - 1, k) {
        assert k in CollectPairs(lines, parse);
      } else {
        assert k in CollectPairs(lines, parse) <==> k in CollectPairs(init, parse);
        if k in CollectPairs(init, parse) {
          var i :| DefinesKey(init, parse, i, k);
          assert DefinesKey(lines, parse, i, k);
        }
      }
    }
  }

  /** The value stored under a key is the one given by the last line that defines it. */
  lemma {:induction false} CollectPairsLastWins<T, K, V>(lines: seq<T>, parse: T -> Option<(K, V)>, i: int, k: K)
    requires DefinesKey(lines, parse, i, k)
    requires forall j :: i < j < |lines| ==> !DefinesKey(lines, parse, j, k)
    ensures k in CollectPairs(lines, parse) && CollectPairs(lines, parse)[k] == parse(lines[i]).value.1
  {
    var init := lines[..|lines| - 1];
    if i < |lines| - 1 {
      assert DefinesKey(init, parse, i, k);
      forall j | i < j < |init| ensures !DefinesKey(init, parse, j, k) {
        assert !DefinesKey(lines, parse, j, k);
      }
      CollectPairsLastWins(init, parse, i, k);
      assert !DefinesKey(lines, parse, |lines| - 1, k);
    }
  }

  /** Every stored value is the value of some line that defines its key. */
  lemma {:induction false} CollectPairsValues<T, K, V>(lines: seq<T>, parse: T -> Option<(K, V)>, k: K)
    requires k in CollectPairs(lines, parse)
    ensures exists i :: DefinesKey(lines, parse, i, k) && CollectPairs(lines, parse)[k] == parse(lines[i]).value.1
  {
    var init := lines[..|lines| - 1];
    if DefinesKey(lines, parse, |lines| - 1, k) {
      assert CollectPairs(lines, parse)[k] == parse(lines[|lines| - 1]).value.1;
    } else {
      assert CollectPairs(lines, parse) == CollectPairs(init, parse) || parse(lines[|lines| - 1]).value.0 != k;
      CollectPairsValues(init, parse, k);
      var i :| DefinesKey(init, parse, i, k) && CollectPairs(init, parse)[k] == parse(init[i]).value.1;
      assert DefinesKey(lines, parse, i, k);
    }
  }
}
