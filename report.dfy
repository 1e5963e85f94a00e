/**
 * The rules of the spreadsheet report that do not depend on the spreadsheet
 * library: the `key: value` project-information file, the natural order of
 * the group sheets, the sheet names, the estimate of wrapped text lines, the
 * photo grid, the numbered detail entries, the 22-item document-control table
 * and the colour of its "situación" cells.
 */
module Report {
  import opened Wrappers
  import opened Text
  import opened Sorting
  import Processing
  import Nlg

  // ------------------------------------------------------------------
  // read_project_info
  // ------------------------------------------------------------------

  /** Reading a file in text mode turns "\r\n" and a lone "\r" into "\n". */
  function UniversalNewlines(s: string): (r: string)
    decreases |s|
    ensures '\r' !in r
  {
    if s == [] then []
    else if s[0] == '\r' then
      if |s| > 1 && s[1] == '\n' then "\n" + UniversalNewlines(s[2..]) else "\n" + UniversalNewlines(s[1..])
    else [s[0]] + UniversalNewlines(s[1..])
  }

  /**
   * The lines `for line in f` yields. Each Python line keeps its "\n"; the
   * model drops it, which changes nothing below because a "\n" is never
   * ':' and `strip` removes it from the value.
   */
  function FileLines(content: string): seq<string> {
    SplitOn(UniversalNewlines(content), '\n')
  }

  /** One line: the stripped, lower-cased text before its first ':' and the stripped text after it. */
  function InfoEntry(line: string): (r: Option<(string, string)>)
    ensures r.None? <==> ':' !in line
  {
    match SplitFirst(line, ':')
    case None => None
    case Some((key, value)) => Some((Lower(Strip(key)), Strip(value)))
  }

  /**
   * `read_project_info`: `file` is the text of the file at `path`, `None`
   * when there is no such file. An empty path or a missing file gives an
   * empty dictionary; otherwise every line with a ':' sets one key, later
   * lines overwriting earlier ones.
   */
  method ReadProjectInfo(path: string, file: Option<string>) returns (info: map<string, string>)
    ensures path == [] || file.None? ==> info == map[]
    ensures path != [] && file.Some? ==> info == CollectPairs(FileLines(file.value), InfoEntry)
  {
    info := map[];
    if path == [] || file.None? {
      return;
    }
    var lines := FileLines(file.value);
    for i := 0 to |lines|
      invariant info == CollectPairs(lines[..i], InfoEntry)
    {
      CollectPairsSnoc(lines, InfoEntry, i);
      var line := lines[i];
      if ':' in line {
        var (key, value) := SplitFirst(line, ':').value;
        info := info[Lower(Strip(key)) := Strip(value)];
      }
    }
    assert lines[..|lines|] == lines;
  }

  /** A key is present exactly when a line with a ':' yields it; lines without one are ignored. */
  lemma ProjectInfoKeys(content: string, key: string)
    ensures key in CollectPairs(FileLines(content), InfoEntry) <==>
      exists i :: 0 <= i < |FileLines(content)| && ':' in FileLines(content)[i] && InfoEntry(FileLines(content)[i]).value.0 == key
  {
    var lines := FileLines(content);
    CollectPairsKeys(lines, InfoEntry, key);
    if exists i :: 0 <= i < |lines| && ':' in lines[i] && InfoEntry(lines[i]).value.0 == key {
      var i :| 0 <= i < |lines| && ':' in lines[i] && InfoEntry(lines[i]).value.0 == key;
      assert DefinesKey(lines, InfoEntry, i, key);
    }
  }

  /** The value of a key is the one on the last line that yields that key. */
  lemma ProjectInfoLastWins(content: string, i: int, key: string)
    requires DefinesKey(FileLines(content), InfoEntry, i, key)
    requires forall j :: i < j < |FileLines(content)| ==> !DefinesKey(FileLines(content), InfoEntry, j, key)
    ensures var info := CollectPairs(FileLines(content), InfoEntry);
      key in info && info[key] == InfoEntry(FileLines(content)[i]).value.1
  {
    CollectPairsLastWins(FileLines(content), InfoEntry, i, key);
  }

  /** Every key is already lower case and has no white space at either end. */
  lemma ProjectInfoKeyForm(content: string, key: string)
    requires key in CollectPairs(FileLines(content), InfoEntry)
    ensures Lower(key) == key
    ensures key != [] ==> NotSpace(key[0]) && NotSpace(key[|key| - 1])
  {
    var lines := FileLines(content);
    ProjectInfoKeys(content, key);
    var i :| 0 <= i < |lines| && ':' in lines[i] && InfoEntry(lines[i]).value.0 == key;
    var t := Strip(SplitFirst(lines[i], ':').value.0);
    assert key == Lower(t);
    LowerKeepsForm(t);
  }

  /** Lower-casing is idempotent and keeps non-space characters non-space. */
  lemma LowerKeepsForm(t: string)
    requires t != [] ==> NotSpace(t[0]) && NotSpace(t[|t| - 1])
    ensures Lower(Lower(t)) == Lower(t)
    ensures Lower(t) != [] ==> NotSpace(Lower(t)[0]) && NotSpace(Lower(t)[|t| - 1])
  {
    forall k | 0 <= k < |t| ensures LowerChar(LowerChar(t[k])) == LowerChar(t[k]) {
    }
  }

  // ------------------------------------------------------------------
  // natural_sort_key and the order of the group sheets
  // ------------------------------------------------------------------

  predicate NotDigit(c: char) { !IsDigit(c) }

  predicate NoDigits(s: string) { forall m :: 0 <= m < |s| ==> NotDigit(s[m]) }

  function Concat(parts: seq<string>): string {
    if parts == [] then [] else parts[0] + Concat(parts[1..])
  }

  /**
   * `re.split('([0-9]+)', s)`: the runs without ASCII digits at even
   * positions (possibly empty), the ASCII digit runs between them at odd
   * positions.
   */
  function SplitDigitRuns(s: string): (parts: seq<string>)
    decreases |s|
  {
    var t := RunLength(s, NotDigit);
    if t == |s| then [s]
    else
      var rest := s[t..];
      var d := RunLength(rest, IsDigit);
      [s[..t], rest[..d]] + SplitDigitRuns(rest[d..])
  }

  /** Nothing is lost: the parts concatenate back to `s`. */
  lemma {:induction false} SplitDigitRunsConcat(s: string)
    ensures Concat(SplitDigitRuns(s)) == s
    decreases |s|
  {
    var t := RunLength(s, NotDigit);
    if t == |s| {
      assert Concat([s]) == s + Concat([]);
    } else {
      var rest := s[t..];
      var d := RunLength(rest, IsDigit);
      var tail := SplitDigitRuns(rest[d..]);
      SplitDigitRunsConcat(rest[d..]);
      var parts := [s[..t], rest[..d]] + tail;
      assert SplitDigitRuns(s) == parts;
      assert parts[1..][1..] == tail;
      assert Concat(parts) == s[..t] + (rest[..d] + Concat(tail));
      assert rest == rest[..d] + rest[d..];
      assert s == s[..t] + rest;
    }
  }

  /** Text runs and non-empty digit runs alternate, starting and ending with a text run. */
  lemma {:induction false} SplitDigitRunsKinds(s: string)
    ensures |SplitDigitRuns(s)| % 2 == 1
    ensures forall k :: 0 <= k < |SplitDigitRuns(s)| ==> RunKind(SplitDigitRuns(s), k)
    decreases |s|
  {
    var t := RunLength(s, NotDigit);
    if t == |s| {
      assert SplitDigitRuns(s) == [s];
    } else {
      var rest := s[t..];
      var d := RunLength(rest, IsDigit);
      assert IsDigit(rest[0]);
      var tail := SplitDigitRuns(rest[d..]);
      SplitDigitRunsKinds(rest[d..]);
      var parts := [s[..t], rest[..d]] + tail;
      assert parts == SplitDigitRuns(s);
      assert |parts| == |tail| + 2;
      ParityStep(|tail|);
      forall k | 0 <= k < |parts| ensures RunKind(parts, k) {
        if k == 0 {
          assert parts[0] == s[..t];
        } else if k == 1 {
          assert parts[1] == rest[..d];
        } else {
          assert parts[k] == tail[k - 2];
          assert RunKind(tail, k - 2);
          ParityStep(k - 2);
        }
      }
    }
  }

  lemma ParityStep(x: nat)
    ensures (x + 2) % 2 == x % 2
  {
  }

  /** Position `k` holds a run without digits when even, a non-empty digit run when odd. */
  predicate RunKind(parts: seq<string>, k: int)
    requires 0 <= k < |parts|
  {
    (k % 2 == 0 ==> NoDigits(parts[k])) && (k % 2 == 1 ==> parts[k] != [] && AllDigits(parts[k]))
  }

  /** One element of the key: a lower-cased text run or the value of a digit run. */
  datatype KeyPart = Text(text: string) | Num(num: nat)

  /** `natural_sort_key` on a name: `int(part)` for digit runs, `part.lower()` for the others. */
  function NaturalKey(name: string): seq<KeyPart> {
    var parts := SplitDigitRuns(name);
    seq(|parts|, k requires 0 <= k < |parts| =>
      if parts[k] != [] && AllDigits(parts[k]) then Num(DecimalValue(parts[k])) else Text(Lower(parts[k])))
  }

  /** The key alternates text and numbers, starting and ending with text, so positions never mix the two. */
  lemma NaturalKeyAlternates(name: string)
    ensures |NaturalKey(name)| % 2 == 1
    ensures forall k :: 0 <= k < |NaturalKey(name)| ==> (NaturalKey(name)[k].Num? <==> k % 2 == 1)
  {
    var parts := SplitDigitRuns(name);
    SplitDigitRunsKinds(name);
    forall k | 0 <= k < |parts| ensures NaturalKey(name)[k].Num? <==> k % 2 == 1 {
      assert RunKind(parts, k);
      if k % 2 == 0 && parts[k] != [] {
        assert NotDigit(parts[k][0]);
      }
    }
  }

  /**
   * Python's order on lists and strings: at the first position where they
   * differ the smaller element decides; a proper prefix comes first.
   */
  function LexLess<T(==)>(a: seq<T>, b: seq<T>, less: (T, T) -> bool): bool
    decreases |a|
  {
    if a == [] then b != []
    else if b == [] then false
    else if a[0] != b[0] then less(a[0], b[0])
    else LexLess(a[1..], b[1..], less)
  }

  lemma {:induction false} LexLessAsymmetric<T(!new)>(a: seq<T>, b: seq<T>, less: (T, T) -> bool)
    requires StrictOrder(less)
    ensures LexLess(a, b, less) ==> !LexLess(b, a, less)
    decreases |a|
  {
    if a != [] && b != [] && a[0] == b[0] {
      LexLessAsymmetric(a[1..], b[1..], less);
    }
  }

  lemma {:induction false} LexLessTransitive<T(!new)>(a: seq<T>, b: seq<T>, c: seq<T>, less: (T, T) -> bool)
    requires StrictOrder(less)
    ensures LexLess(a, b, less) && LexLess(b, c, less) ==> LexLess(a, c, less)
    decreases |a|
  {
    if a != [] && b != [] && c != [] && a[0] == b[0] && b[0] == c[0] {
      LexLessTransitive(a[1..], b[1..], c[1..], less);
    }
  }

  predicate CharLess(x: char, y: char) { x < y }

  /** Python's `<` on strings: by code points. */
  predicate StrLess(a: string, b: string) { LexLess(a, b, CharLess) }

  /** Positions hold the same kind in two keys; numbers before text is an arbitrary completion. */
  predicate PartLess(p: KeyPart, q: KeyPart) {
    match (p, q)
    case (Text(a), Text(b)) => StrLess(a, b)
    case (Num(x), Num(y)) => x < y
    case (Num(_), Text(_)) => true
    case (Text(_), Num(_)) => false
  }

  /** Python's `<` on two natural sort keys. */
  predicate KeyLess(a: seq<KeyPart>, b: seq<KeyPart>) { LexLess(a, b, PartLess) }

  lemma PartLessStrict()
    ensures StrictOrder(PartLess)
  {
    assert StrictOrder(CharLess);
    forall p, q | PartLess(p, q) ensures !PartLess(q, p) {
      if p.Text? && q.Text? {
        LexLessAsymmetric(p.text, q.text, CharLess);
      }
    }
    forall p, q, r | PartLess(p, q) && PartLess(q, r) ensures PartLess(p, r) {
      if p.Text? && q.Text? && r.Text? {
        LexLessTransitive(p.text, q.text, r.text, CharLess);
      }
    }
  }

  /** A sheet precedes another when its name's natural key is smaller. */
  predicate GroupBefore(x: (string, Processing.Grupo), y: (string, Processing.Grupo)) {
    KeyLess(NaturalKey(x.0), NaturalKey(y.0))
  }

  lemma GroupBeforeStrict()
    ensures StrictOrder(GroupBefore)
  {
    PartLessStrict();
    forall x, y | GroupBefore(x, y) ensures !GroupBefore(y, x) {
      LexLessAsymmetric(NaturalKey(x.0), NaturalKey(y.0), PartLess);
    }
    forall x, y, z | GroupBefore(x, y) && GroupBefore(y, z) ensures GroupBefore(x, z) {
      LexLessTransitive(NaturalKey(x.0), NaturalKey(y.0), NaturalKey(z.0), PartLess);
    }
  }

  /** `sorted(grupos.items(), key=natural_sort_key)`. */
  function SortedGroups(items: seq<(string, Processing.Grupo)>): seq<(string, Processing.Grupo)> {
    SortBy(items, GroupBefore)
  }

  /** The sheets are the groups, each once, in natural order of their names. */
  lemma SortedGroupsOrder(items: seq<(string, Processing.Grupo)>)
    ensures multiset(SortedGroups(items)) == multiset(items)
    ensures Sorted(SortedGroups(items), GroupBefore)
  {
    GroupBeforeStrict();
    SortBySorted(items, GroupBefore);
  }

  /** A strict element order that relates any two different elements makes `LexLess` relate any two different sequences. */
  lemma {:induction false} LexLessTotal<T(!new)>(a: seq<T>, b: seq<T>, less: (T, T) -> bool)
    requires forall x, y :: x != y ==> less(x, y) || less(y, x)
    ensures a != b ==> LexLess(a, b, less) || LexLess(b, a, less)
    decreases |a|
  {
    if a != [] && b != [] && a[0] == b[0] {
      if a[1..] == b[1..] {
        assert a == [a[0]] + a[1..] && b == [b[0]] + b[1..];
      }
      LexLessTotal(a[1..], b[1..], less);
    }
  }

  /** Any two different key parts are ordered one way or the other. */
  lemma PartLessTotal(p: KeyPart, q: KeyPart)
    ensures p != q ==> PartLess(p, q) || PartLess(q, p)
  {
    if p.Text? && q.Text? {
      LexLessTotal(p.text, q.text, CharLess);
    }
  }

  /**
   * Comparing sheets by the natural key of their names is a strict weak
   * order, and two sheets compare equal exactly when their names have the
   * same key (as "Grupo 1" and "grupo 1", or "G01" and "G1").
   */
  lemma GroupBeforeWeak()
    ensures StrictWeakOrder(GroupBefore)
    ensures forall x, y :: Tied(x, y, GroupBefore) <==> NaturalKey(x.0) == NaturalKey(y.0)
  {
    GroupBeforeStrict();
    forall p, q ensures p != q ==> PartLess(p, q) || PartLess(q, p) {
      PartLessTotal(p, q);
    }
    forall x: (string, Processing.Grupo), y: (string, Processing.Grupo)
      ensures NaturalKey(x.0) != NaturalKey(y.0) ==> GroupBefore(x, y) || GroupBefore(y, x) {
      LexLessTotal(NaturalKey(x.0), NaturalKey(y.0), PartLess);
    }
    forall x: (string, Processing.Grupo), y: (string, Processing.Grupo), z: (string, Processing.Grupo) | GroupBefore(x, z)
      ensures GroupBefore(x, y) || GroupBefore(y, z)
    {
      if NaturalKey(x.0) != NaturalKey(y.0) && !GroupBefore(x, y) {
        assert GroupBefore(y, x);
      }
    }
  }

  /**
   * `sorted` is stable: the sheets whose names have the same natural key as
   * `z`'s keep their order in the dict.
   */
  lemma SortedGroupsStable(items: seq<(string, Processing.Grupo)>, z: (string, Processing.Grupo))
    ensures Ties(SortedGroups(items), z, GroupBefore) == Ties(items, z, GroupBefore)
    ensures forall x :: Tied(x, z, GroupBefore) <==> NaturalKey(x.0) == NaturalKey(z.0)
  {
    GroupBeforeWeak();
    SortByStable(items, z, GroupBefore);
  }

  /** Digit runs compare as numbers and letters ignore case: "grupo 2" precedes "Grupo 10". */
  lemma NaturalOrderExample()
    ensures KeyLess(NaturalKey("grupo 2"), NaturalKey("Grupo 10"))
  {
    var a, b := NaturalKey("grupo 2"), NaturalKey("Grupo 10");
    KeyOfGrupo2();
    KeyOfGrupo10();
    assert PartLess(a[1], b[1]);
    LexLessAtSecond(a, b, PartLess);
  }

  /** The key of a digit-free text followed by the decimal form of `n`: the lower-cased text, `n` and an empty text. */
  lemma KeyOfTextNumber(t: string, n: nat)
    requires NoDigits(t)
    ensures var key := NaturalKey(t + NatToDecimal(n));
      |key| == 3 && key[0] == Text(Lower(t)) && key[1] == Num(n) && key[2] == Text("")
  {
    var d := NatToDecimal(n);
    SplitTextDigits(t, d);
    var parts := SplitDigitRuns(t + d);
    assert parts[0] == t && parts[1] == d && parts[2] == "";
    assert t != [] ==> !IsDigit(t[0]);
    DecimalRoundTrip(n);
  }

  /**
   * Digit runs compare as numbers and letters ignore case: two names made of
   * the same text, up to letter case, and a number are ordered by the number.
   */
  lemma NaturalOrderByNumber(t1: string, t2: string, a: nat, b: nat)
    requires NoDigits(t1) && NoDigits(t2) && Lower(t1) == Lower(t2) && a < b
    ensures KeyLess(NaturalKey(t1 + NatToDecimal(a)), NaturalKey(t2 + NatToDecimal(b)))
  {
    var ka, kb := NaturalKey(t1 + NatToDecimal(a)), NaturalKey(t2 + NatToDecimal(b));
    KeyOfTextNumber(t1, a);
    KeyOfTextNumber(t2, b);
    assert PartLess(ka[1], kb[1]);
    LexLessAtSecond(ka, kb, PartLess);
  }

  /** Equal first elements: the second ones decide. */
  lemma LexLessAtSecond<T>(a: seq<T>, b: seq<T>, less: (T, T) -> bool)
    requires |a| >= 2 && |b| >= 2 && a[0] == b[0] && a[1] != b[1] && less(a[1], b[1])
    ensures LexLess(a, b, less)
  {
    assert a[1..][0] == a[1] && b[1..][0] == b[1];
  }

  /** The key of "grupo 2": the text "grupo ", the number 2 and an empty text. */
  lemma KeyOfGrupo2()
    ensures var key := NaturalKey("grupo 2");
      |key| == 3 && key[0] == Text("grupo ") && key[1] == Num(2) && key[2] == Text("")
  {
    var key := NaturalKey("grupo 2");
    var parts := SplitDigitRuns("grupo 2");
    SplitGrupo2();
    assert key[0] == Text("grupo ") by {
      assert parts[0] == "grupo " && !IsDigit(parts[0][0]);
      LowerGrupo();
    }
    assert key[1] == Num(2) by {
      assert parts[1] == "2" && IsDigit(parts[1][0]);
      assert AllDigits("2") && DecimalValue("2") == 2;
    }
    assert key[2] == Text("") by {
      assert parts[2] == "";
    }
  }

  lemma LowerGrupo()
    ensures Lower("grupo ") == "grupo " && Lower("Grupo ") == "grupo "
  {
  }

  lemma DecimalTen()
    ensures AllDigits("10") && DecimalValue("10") == 10
  {
    assert "10"[..1] == "1";
  }

  lemma SplitGrupo2()
    ensures SplitDigitRuns("grupo 2") == ["grupo ", "2", ""]
  {
    assert "grupo 2" == "grupo " + "2";
    assert NoDigits("grupo ");
    SplitTextDigits("grupo ", "2");
  }

  /** A digit-free text followed by one digit run splits into the two and an empty tail. */
  lemma SplitTextDigits(t: string, d: string)
    requires NoDigits(t) && d != [] && AllDigits(d)
    ensures SplitDigitRuns(t + d) == [t, d, ""]
  {
    var s := t + d;
    assert s[|t|] == d[0];
    RunLengthIs(s, NotDigit, |t|);
    var rest := s[|t|..];
    assert rest == d;
    RunLengthIs(d, IsDigit, |d|);
    assert s[..|t|] == t && d[..|d|] == d && d[|d|..] == [];
    assert SplitDigitRuns([]) == [""];
  }

  /** The key of "Grupo 10": the lower-cased text "grupo ", the number 10 and an empty text. */
  lemma KeyOfGrupo10()
    ensures var key := NaturalKey("Grupo 10");
      |key| == 3 && key[0] == Text("grupo ") && key[1] == Num(10) && key[2] == Text("")
  {
    var key := NaturalKey("Grupo 10");
    var parts := SplitDigitRuns("Grupo 10");
    SplitGrupo10();
    assert |key| == 3;
    assert key[0] == Text("grupo ") by {
      assert parts[0] == "Grupo " && !IsDigit(parts[0][0]);
      LowerGrupo();
    }
    assert key[1] == Num(10) by {
      assert parts[1] == "10";
      DecimalTen();
    }
    assert key[2] == Text("") by {
      assert parts[2] == "";
    }
  }

  lemma SplitGrupo10()
    ensures SplitDigitRuns("Grupo 10") == ["Grupo ", "10", ""]
  {
    assert "Grupo 10" == "Grupo " + "10";
    assert NoDigits("Grupo ");
    DecimalTen();
    SplitTextDigits("Grupo ", "10");
  }

  // ------------------------------------------------------------------
  // estimate_visual_lines
  // ------------------------------------------------------------------

  /** `math.ceil(a / b)` on exact integers. */
  function CeilDiv(a: nat, b: nat): nat
    requires b > 0
  {
    (a + b - 1) / b
  }

  /** The ceiling: the least `q` with `q * b >= a`. */
  lemma CeilDivSpec(a: nat, b: nat)
    requires b > 0
    ensures CeilDiv(a, b) * b >= a
    ensures CeilDiv(a, b) > 0 ==> (CeilDiv(a, b) - 1) * b < a
    ensures 0 < a ==> 1 <= CeilDiv(a, b) <= a
  {
    var q := CeilDiv(a, b);
    var r := (a + b - 1) % b;
    assert a + b - 1 == q * b + r && 0 <= r < b;
    if q > 0 {
      MulAtLeast(q - 1, b);
      assert (q - 1) * b == q * b - b;
    }
    if 0 < a {
      assert q * b >= a > 0;
    }
  }

  lemma MulAtLeast(x: nat, b: nat)
    requires b >= 1
    ensures x * b >= x
  {
    assert x * b == x * (b - 1) + x;
  }

  /** The lines one `\n`-separated segment takes: an empty one still takes a line. */
  function SegmentLines(seg: string, cpl: nat): nat
    requires cpl > 0
  {
    if seg == [] then 1 else CeilDiv(|seg|, cpl)
  }

  function SumLines(segs: seq<string>, cpl: nat): nat
    requires cpl > 0
  {
    if segs == [] then 0 else SegmentLines(segs[0], cpl) + SumLines(segs[1..], cpl)
  }

  /** What `estimate_visual_lines(text, chars_per_line)` returns. */
  function VisualLines(text: string, cpl: int): nat {
    if text == [] || cpl <= 0 then 1 else SumLines(SplitOn(text, '\n'), cpl)
  }

  lemma {:induction false} SumLinesSnoc(segs: seq<string>, cpl: nat, i: nat)
    requires cpl > 0 && i < |segs|
    ensures SumLines(segs[..i + 1], cpl) == SumLines(segs[..i], cpl) + SegmentLines(segs[i], cpl)
  {
    if i > 0 {
      SumLinesSnoc(segs[1..], cpl, i - 1);
      assert segs[1..][..i] == segs[..i + 1][1..];
      assert segs[1..][..i - 1] == segs[..i][1..];
    }
  }

  /** `estimate_visual_lines`: the loop over the segments that accumulates `total_lines`. */
  method EstimateVisualLines(text: string, charsPerLine: int) returns (total: nat)
    ensures total == VisualLines(text, charsPerLine)
  {
    if text == [] || charsPerLine <= 0 {
      return 1;
    }
    var segs := SplitOn(text, '\n');
    total := 0;
    for i := 0 to |segs|
      invariant total == SumLines(segs[..i], charsPerLine)
    {
      SumLinesSnoc(segs, charsPerLine, i);
      var seg := segs[i];
      if seg != [] {
        total := total + (|seg| + charsPerLine - 1) / charsPerLine;
      } else {
        total := total + 1;
      }
    }
    assert segs[..|segs|] == segs;
  }

  function SumLen(segs: seq<string>): nat {
    if segs == [] then 0 else |segs[0]| + SumLen(segs[1..])
  }

  /** Joining with a one-character separator adds one character between neighbours. */
  lemma {:induction false} JoinLength(parts: seq<string>, c: char)
    requires parts != []
    ensures |JoinWith([c], parts)| + 1 == SumLen(parts) + |parts|
  {
    if |parts| > 1 {
      JoinLength(parts[1..], c);
    }
  }

  /** Every segment takes at least one line and at most one line per character (or one if empty). */
  lemma {:induction false} SumLinesBounds(segs: seq<string>, cpl: nat)
    requires cpl > 0
    ensures |segs| <= SumLines(segs, cpl) <= SumLen(segs) + |segs|
  {
    if segs != [] {
      CeilDivSpec(|segs[0]|, cpl);
      SumLinesBounds(segs[1..], cpl);
    }
  }

  /**
   * The estimate is at least 1 and, for a non-empty text and a positive
   * width, at least the number of `\n`-separated segments and at most one
   * more than the length of the text.
   */
  lemma VisualLinesBounds(text: string, cpl: int)
    ensures VisualLines(text, cpl) >= 1
    ensures text != [] && cpl > 0 ==> |SplitOn(text, '\n')| <= VisualLines(text, cpl) <= |text| + 1
  {
    if text != [] && cpl > 0 {
      var segs := SplitOn(text, '\n');
      SumLinesBounds(segs, cpl);
      JoinLength(segs, '\n');
    }
  }

  // ------------------------------------------------------------------
  // Sheet names
  // ------------------------------------------------------------------

  /** The characters a sheet title may not contain, in the order they are replaced. */
  const InvalidChars: seq<char> := ['/', '\\', '?', '*', '[', ']']

  /** `s.replace(c, r)` for single characters. */
  function ReplaceChar(s: string, c: char, r: char): (t: string)
    ensures |t| == |s|
    ensures forall k :: 0 <= k < |s| ==> t[k] == if s[k] == c then r else s[k]
  {
    seq(|s|, k requires 0 <= k < |s| => if s[k] == c then r else s[k])
  }

  /**
   * The sheet title for a group name: each invalid character replaced by
   * '-', then cut to 31 characters.
   */
  method SheetName(gname: string) returns (sheet: string)
    ensures |sheet| == if |gname| < 31 then |gname| else 31
    ensures forall k :: 0 <= k < |sheet| ==> sheet[k] == if gname[k] in InvalidChars then '-' else gname[k]
    ensures forall k :: 0 <= k < |sheet| ==> sheet[k] !in InvalidChars
  {
    var sanitized := gname;
    for i := 0 to |InvalidChars|
      invariant |sanitized| == |gname|
      invariant forall k :: 0 <= k < |gname| ==> sanitized[k] == if gname[k] in InvalidChars[..i] then '-' else gname[k]
    {
      sanitized := ReplaceChar(sanitized, InvalidChars[i], '-');
      assert InvalidChars[..i + 1] == InvalidChars[..i] + [InvalidChars[i]];
    }
    assert InvalidChars[..|InvalidChars|] == InvalidChars;
    sheet := if |sanitized| < 31 then sanitized else sanitized[..31];
  }

  // ------------------------------------------------------------------
  // The photo grid of a group sheet
  // ------------------------------------------------------------------

  const Cols: nat := 4
  const Rows: nat := 3
  /** Photos per page of the grid. */
  const PerPage: nat := 12
  /** The first row of the grid; rows 1 to 3 hold the title and its headers. */
  const GridTop: nat := 4

  /** Where the name (or the image) of one photo goes: its row and its column, 1 being column A. */
  datatype Placement = Placement(foto: Processing.Foto, row: nat, col: nat)

  /** The row of the `j`-th photo: pages of three rows, each followed by one spacer row. */
  function PhotoRow(j: nat): nat {
    GridTop + (j / PerPage) * (Rows + 1) + (j % PerPage) / Cols
  }

  function PhotoCol(j: nat): nat {
    (j % PerPage) % Cols + 1
  }

  /** The row of the "UBICACIÓN Y DETALLE:" header after a grid of `n` photos. */
  function RowAfterGrid(n: nat): nat {
    GridTop + CeilDiv(n, PerPage) * (Rows + 1) + 1
  }

  /**
   * The grid loop: `ceil(n / 12)` pages, the chunk of each page laid out
   * four to a row, `current_row` advancing by four per page and by one
   * more after the last.
   */
  method PlacePhotos(fotos: seq<Processing.Foto>) returns (cells: seq<Placement>, nextRow: nat)
    ensures |cells| == |fotos|
    ensures forall j :: 0 <= j < |fotos| ==> cells[j] == Placement(fotos[j], PhotoRow(j), PhotoCol(j))
    ensures nextRow == RowAfterGrid(|fotos|)
  {
    var n := |fotos|;
    var pages := CeilDiv(n, PerPage);
    CeilDivSpec(n, PerPage);
    var currentRow := GridTop;
    cells := [];
    for page := 0 to pages
      invariant currentRow == GridTop + page * (Rows + 1)
      invariant |cells| == if page * PerPage < n then page * PerPage else n
      invariant forall j :: 0 <= j < |cells| ==> cells[j] == Placement(fotos[j], PhotoRow(j), PhotoCol(j))
    {
      var lo := page * PerPage;
      var hi := if (page + 1) * PerPage < n then (page + 1) * PerPage else n;
      var chunk := fotos[lo..hi];
      for idx := 0 to |chunk|
        invariant |cells| == lo + idx
        invariant forall j :: 0 <= j < |cells| ==> cells[j] == Placement(fotos[j], PhotoRow(j), PhotoCol(j))
      {
        PageSlot(page, idx);
        cells := cells + [Placement(chunk[idx], currentRow + idx / Cols, idx % Cols + 1)];
      }
      currentRow := currentRow + Rows + 1;
    }
    nextRow := currentRow + 1;
  }

  /** Slot `idx` of page `page` is photo `page * 12 + idx`. */
  lemma PageSlot(page: nat, idx: nat)
    requires idx < PerPage
    ensures PhotoRow(page * PerPage + idx) == GridTop + page * (Rows + 1) + idx / Cols
    ensures PhotoCol(page * PerPage + idx) == idx % Cols + 1
  {
    var j := page * PerPage + idx;
    assert j / PerPage == page && j % PerPage == idx;
  }

  /** Columns A to D only, and never the spacer row that closes a page. */
  lemma PhotoCellInGrid(j: nat)
    ensures 1 <= PhotoCol(j) <= Cols
    ensures GridTop <= PhotoRow(j)
    ensures (PhotoRow(j) - GridTop) % (Rows + 1) != Rows
  {
    var q, r := j / PerPage, j % PerPage;
    assert PhotoRow(j) - GridTop == q * 4 + r / 4;
    assert (q * 4 + r / 4) % 4 == r / 4;
  }

  /** No two photos share a cell. */
  lemma PhotoCellsDistinct(i: nat, j: nat)
    requires PhotoRow(i) == PhotoRow(j) && PhotoCol(i) == PhotoCol(j)
    ensures i == j
  {
    var qi, ri := i / PerPage, i % PerPage;
    var qj, rj := j / PerPage, j % PerPage;
    assert qi * 4 + ri / 4 == qj * 4 + rj / 4;
    assert qi == qj && ri / 4 == rj / 4;
    assert ri % 4 == rj % 4;
    assert ri == (ri / 4) * 4 + ri % 4 && rj == (rj / 4) * 4 + rj % 4;
  }

  /** Every photo of the group lies above the details header. */
  lemma PhotoAboveDetails(n: nat, j: nat)
    requires j < n
    ensures PhotoRow(j) < RowAfterGrid(n)
  {
    CeilDivSpec(n, PerPage);
    var q := j / PerPage;
    assert q * PerPage <= j < n <= CeilDiv(n, PerPage) * PerPage;
    assert q < CeilDiv(n, PerPage);
    assert (j % PerPage) / Cols < Rows;
  }

  // ------------------------------------------------------------------
  // The numbered details of a group sheet
  // ------------------------------------------------------------------

  /** `detail.split('+', 1)[1].strip()` when the detail holds a '+', the detail itself otherwise. */
  function DetailAfterPlus(detail: string): string {
    match SplitFirst(detail, '+')
    case None => detail
    case Some((_, rest)) => Strip(rest)
  }

  /** The text kept is what follows the first '+', without surrounding white space. */
  lemma DetailAfterPlusSpec(detail: string, i: nat)
    requires i < |detail| && detail[i] == '+' && '+' !in detail[..i]
    ensures DetailAfterPlus(detail) == Strip(detail[i + 1..])
  {
    var (before, rest) := SplitFirst(detail, '+').value;
    assert detail == before + ['+'] + rest;
    assert rest == detail[i + 1..];
  }

  /** Without a '+' the detail is kept as it is, white space included. */
  lemma DetailWithoutPlus(detail: string)
    requires '+' !in detail
    ensures DetailAfterPlus(detail) == detail
  {
  }

  /** The location label of the `i`-th photo of a group, counting from 1. */
  function FotoLabel(carpeta: string, i: nat): string {
    carpeta + " [Foto " + NatToDecimal(i) + "]"
  }

  /** The entry of each photo: its detail after the '+' and its label, numbered from 1. */
  function Entradas(fotos: seq<Processing.Foto>): seq<Nlg.Entry> {
    seq(|fotos|, k requires 0 <= k < |fotos| => Nlg.Entry(DetailAfterPlus(fotos[k].specificDetail), FotoLabel(fotos[k].carpeta, k + 1)))
  }

  /** The pairs handed to the sentence writer, one per photo in order. */
  method BuildEntradas(fotos: seq<Processing.Foto>) returns (entradas: seq<Nlg.Entry>)
    ensures |entradas| == |fotos|
    ensures forall k :: 0 <= k < |fotos| ==>
      entradas[k] == Nlg.Entry(DetailAfterPlus(fotos[k].specificDetail), FotoLabel(fotos[k].carpeta, k + 1))
    ensures entradas == Entradas(fotos)
  {
    entradas := [];
    for i := 0 to |fotos|
      invariant |entradas| == i
      invariant forall k :: 0 <= k < i ==>
        entradas[k] == Nlg.Entry(DetailAfterPlus(fotos[k].specificDetail), FotoLabel(fotos[k].carpeta, k + 1))
    {
      var foto := fotos[i];
      entradas := entradas + [Nlg.Entry(DetailAfterPlus(foto.specificDetail), FotoLabel(foto.carpeta, i + 1))];
    }
  }

  /** The characters a label ends with: the number, then ']', after " [Foto ". */
  lemma FotoLabelShape(carpeta: string, i: nat)
    ensures var l, d := FotoLabel(carpeta, i), NatToDecimal(i);
      |l| == |carpeta| + 8 + |d| && l[|l| - 1] == ']' && l[|l| - 2 - |d|] == ' ' &&
      l[|l| - 1 - |d|..|l| - 1] == d
  {
  }

  /**
   * Two photos of a group never get the same label, whatever their folders:
   * the number is the run of digits before the closing ']'.
   */
  lemma FotoLabelNumber(c1: string, i: nat, c2: string, j: nat)
    requires FotoLabel(c1, i) == FotoLabel(c2, j)
    ensures i == j
  {
    var l := FotoLabel(c1, i);
    var d1, d2 := NatToDecimal(i), NatToDecimal(j);
    FotoLabelShape(c1, i);
    FotoLabelShape(c2, j);
    DecimalInjective(i, j);
  }

  /** The labels of one group's entries are pairwise distinct. */
  lemma EntradaLabelsDistinct(fotos: seq<Processing.Foto>, j: nat, k: nat)
    requires j < k < |fotos|
    ensures FotoLabel(fotos[j].carpeta, j + 1) != FotoLabel(fotos[k].carpeta, k + 1)
  {
    if FotoLabel(fotos[j].carpeta, j + 1) == FotoLabel(fotos[k].carpeta, k + 1) {
      FotoLabelNumber(fotos[j].carpeta, j + 1, fotos[k].carpeta, k + 1);
    }
  }

  /** `"{i}. {sentence}"` for each sentence, counting from 1. */
  function NumberedSentences(oraciones: seq<string>): (lines: seq<string>)
  {
    seq(|oraciones|, k requires 0 <= k < |oraciones| => NatToDecimal(k + 1) + ". " + oraciones[k])
  }

  /** The text of the details cell: the numbered sentences, one per line. */
  function DetailsText(oraciones: seq<string>): string {
    JoinWith("\n", NumberedSentences(oraciones))
  }

  /**
   * The details cell is empty exactly when there are no sentences; when no
   * sentence holds a line break, its lines are the sentences in order, each
   * behind its number.
   */
  lemma DetailsLines(oraciones: seq<string>)
    ensures DetailsText(oraciones) == [] <==> oraciones == []
    ensures oraciones != [] && (forall k :: 0 <= k < |oraciones| ==> '\n' !in oraciones[k]) ==>
      var lines := SplitOn(DetailsText(oraciones), '\n');
      |lines| == |oraciones| && forall k :: 0 <= k < |oraciones| ==> lines[k] == NatToDecimal(k + 1) + ". " + oraciones[k]
  {
    var numbered := NumberedSentences(oraciones);
    if oraciones != [] {
      JoinWithStarts("\n", numbered);
      assert numbered[0] != [];
      if forall k :: 0 <= k < |oraciones| ==> '\n' !in oraciones[k] {
        forall k | 0 <= k < |numbered| ensures '\n' !in numbered[k] {
          var d := NatToDecimal(k + 1);
          assert numbered[k] == d + ". " + oraciones[k];
          assert forall m :: 0 <= m < |d| ==> d[m] != '\n';
        }
        SplitOnJoin(numbered, '\n');
      }
    }
  }

  /** The text of the recommendations cell: one bulleted line each, or a dash when there are none. */
  function RecommendationsText(recs: seq<string>): string {
    if recs == [] then "—"
    else JoinWith("\n", seq(|recs|, k requires 0 <= k < |recs| => "• " + recs[k]))
  }

  /**
   * The recommendations cell is the dash exactly when there are none; when no
   * recommendation holds a line break, its lines are the recommendations in
   * order, each behind a bullet.
   */
  lemma RecommendationsLines(recs: seq<string>)
    ensures RecommendationsText(recs) == "—" <==> recs == []
    ensures recs != [] && (forall k :: 0 <= k < |recs| ==> '\n' !in recs[k]) ==>
      var lines := SplitOn(RecommendationsText(recs), '\n');
      |lines| == |recs| && forall k :: 0 <= k < |recs| ==> lines[k] == "• " + recs[k]
  {
    if recs != [] {
      var bulleted := seq(|recs|, k requires 0 <= k < |recs| => "• " + recs[k]);
      JoinWithStarts("\n", bulleted);
      assert RecommendationsText(recs)[0] == '•';
      if forall k :: 0 <= k < |recs| ==> '\n' !in recs[k] {
        assert forall k :: 0 <= k < |bulleted| ==> bulleted[k] == "• " + recs[k];
        SplitOnJoin(bulleted, '\n');
      }
    }
  }

  /** The rows the two merged content cells span. */
  function NeededRows(detailsText: string, recText: string): nat {
    var d, r := VisualLines(detailsText, 70), VisualLines(recText, 70);
    if 8 < d || 8 < r then (if d < r then r else d) else 8
  }

  /** At least eight rows, and at least as many as either text has lines. */
  lemma NeededRowsBounds(detailsText: string, recText: string)
    ensures NeededRows(detailsText, recText) >= 8
    ensures NeededRows(detailsText, recText) >= VisualLines(detailsText, 70)
    ensures NeededRows(detailsText, recText) >= VisualLines(recText, 70)
    ensures detailsText != [] ==> NeededRows(detailsText, recText) >= |SplitOn(detailsText, '\n')|
    ensures recText != [] ==> NeededRows(detailsText, recText) >= |SplitOn(recText, '\n')|
  {
    VisualLinesBounds(detailsText, 70);
    VisualLinesBounds(recText, 70);
  }

  /**
   * The content under the details and recommendations headers of a group
   * sheet: the photos' entries grouped into sentences at the 0.8 threshold,
   * the numbered details text, the bulleted recommendations text, and the
   * rows the two merged cells span. A group always holds a list of
   * recommendations, so `getattr(grupo, "recomendaciones", None) or []` is
   * that list.
   */
  method GroupContent(grupo: Processing.Grupo, ratio: Nlg.Ratio)
    returns (oraciones: seq<string>, detailsText: string, recText: string, neededRows: nat)
    ensures oraciones == Nlg.AgrupaYRedacta(Entradas(grupo.fotos), ratio, Nlg.DefaultUmbral)
    ensures detailsText == DetailsText(oraciones) && recText == RecommendationsText(grupo.recomendaciones)
    ensures neededRows == NeededRows(detailsText, recText)
    ensures detailsText == [] <==> grupo.fotos == []
    ensures recText == "—" <==> grupo.recomendaciones == []
    ensures neededRows >= 8 && neededRows >= VisualLines(detailsText, 70) && neededRows >= VisualLines(recText, 70)
    ensures (forall k :: 0 <= k < |oraciones| ==> '\n' !in oraciones[k]) ==> neededRows >= |oraciones|
    ensures (forall k :: 0 <= k < |grupo.recomendaciones| ==> '\n' !in grupo.recomendaciones[k]) ==>
      neededRows >= |grupo.recomendaciones|
  {
    var entradas := BuildEntradas(grupo.fotos);
    oraciones := Nlg.AgrupaYRedacta(entradas, ratio, Nlg.DefaultUmbral);
    detailsText := DetailsText(oraciones);
    var recs := grupo.recomendaciones;
    recText := RecommendationsText(recs);
    var charsPerLine := 70;
    var detailsLines := EstimateVisualLines(detailsText, charsPerLine);
    var recLines := EstimateVisualLines(recText, charsPerLine);
    neededRows := if detailsLines < recLines then recLines else detailsLines;
    if neededRows < 8 {
      neededRows := 8;
    }
    DetailsLines(oraciones);
    RecommendationsLines(recs);
    NeededRowsBounds(detailsText, recText);
  }

  // ------------------------------------------------------------------
  // Document control: the input values
  // ------------------------------------------------------------------

  /** The Python values the document-control input is made of. */
  datatype PyValue = PyNone | PyBool(b: bool) | PyInt(i: int) | PyStr(s: string)

  /** Python truthiness. */
  predicate PyTruthy(v: PyValue) {
    match v
    case PyNone => false
    case PyBool(b) => b
    case PyInt(i) => i != 0
    case PyStr(s) => s != []
  }

  /** `int(v)`; `None` where Python raises. */
  function PyIntOf(v: PyValue): Option<int> {
    match v
    case PyNone => None
    case PyBool(b) => Some(if b then 1 else 0)
    case PyInt(i) => Some(i)
    case PyStr(s) => ParseInt(s)
  }

  /** `str(v)`. */
  function PyStrOf(v: PyValue): string {
    match v
    case PyNone => "None"
    case PyBool(b) => if b then "True" else "False"
    case PyInt(i) => IntToString(i)
    case PyStr(s) => s
  }

  /** An element of a list given as document control: a dict, a list or tuple, or anything else. */
  datatype DocItem = DictItem(fields: map<string, PyValue>) | SeqItem(elems: seq<PyValue>) | OtherItem

  /** The whole `control_documents` argument: a dict (its items in order), a list or tuple, or another value. */
  datatype ControlDocs =
    | DocsDict(entries: seq<(PyValue, PyValue)>)
    | DocsSeq(items: seq<DocItem>)
    | DocsOther(truthy: bool)

  predicate DocsTruthy(docs: ControlDocs) {
    match docs
    case DocsDict(entries) => entries != []
    case DocsSeq(items) => items != []
    case DocsOther(truthy) => truthy
  }

  /** `d.get(key)`. */
  function Get(fields: map<string, PyValue>, key: string): PyValue {
    if key in fields then fields[key] else PyNone
  }

  /** One dict entry: `int(k)` and `str(v)`, an empty text for `None`; skipped when `int(k)` raises. */
  function DictEntry(kv: (PyValue, PyValue)): (r: Option<(int, string)>)
    ensures r.Some? <==> PyIntOf(kv.0).Some?
  {
    match PyIntOf(kv.0)
    case None => None
    case Some(n) => Some((n, if kv.1.PyNone? then "" else PyStrOf(kv.1)))
  }

  /** `item.get('numero') or item.get('num') or item.get('id')`. */
  function ItemNumber(fields: map<string, PyValue>): PyValue {
    var numero, num := Get(fields, "numero"), Get(fields, "num");
    if PyTruthy(numero) then numero else if PyTruthy(num) then num else Get(fields, "id")
  }

  /** One list element: its number and its situation, or `None` when it is skipped. */
  function ItemEntry(item: DocItem): Option<(int, string)> {
    match item
    case DictItem(fields) =>
      var num := ItemNumber(fields);
      if num.PyNone? then None
      else (match PyIntOf(num)
        case None => None
        case Some(n) => Some((n, PyStrOf(if "situacion" in fields then fields["situacion"] else PyStr("")))))
    case SeqItem(elems) =>
      if |elems| < 2 then None
      else (match PyIntOf(elems[0])
        case None => None
        case Some(n) => Some((n, PyStrOf(elems[1]))))
    case OtherItem => None
  }

  /** The dictionary `norm` from item number to situation. */
  function Normalized(docs: ControlDocs): map<int, string> {
    match docs
    case DocsDict(entries) => CollectPairs(entries, DictEntry)
    case DocsSeq(items) => CollectPairs(items, ItemEntry)
    case DocsOther(_) => map[]
  }

  /** The normalisation loops; later entries for a number overwrite earlier ones. */
  method NormalizeControlDocs(docs: ControlDocs) returns (norm: map<int, string>)
    ensures norm == Normalized(docs)
  {
    norm := map[];
    match docs {
      case DocsDict(entries) =>
        for i := 0 to |entries|
          invariant norm == CollectPairs(entries[..i], DictEntry)
        {
          CollectPairsSnoc(entries, DictEntry, i);
          var (k, v) := entries[i];
          var num := PyIntOf(k);
          if num.Some? {
            norm := norm[num.value := if v.PyNone? then "" else PyStrOf(v)];
          }
        }
        assert entries[..|entries|] == entries;
      case DocsSeq(items) =>
        for i := 0 to |items|
          invariant norm == CollectPairs(items[..i], ItemEntry)
        {
          CollectPairsSnoc(items, ItemEntry, i);
          var entry := ItemEntry(items[i]);
          if entry.Some? {
            norm := norm[entry.value.0 := entry.value.1];
          }
        }
        assert items[..|items|] == items;
      case DocsOther(_) =>
    }
  }

  /** A number is present exactly when some element of the input yields it. */
  lemma NormalizedKeys(items: seq<DocItem>, n: int)
    ensures n in Normalized(DocsSeq(items)) <==> exists i :: DefinesKey(items, ItemEntry, i, n)
  {
    CollectPairsKeys(items, ItemEntry, n);
  }

  /** The situation of a number is the one of the last element that yields that number. */
  lemma NormalizedLastWins(items: seq<DocItem>, i: int, n: int)
    requires DefinesKey(items, ItemEntry, i, n)
    requires forall j :: i < j < |items| ==> !DefinesKey(items, ItemEntry, j, n)
    ensures n in Normalized(DocsSeq(items)) && Normalized(DocsSeq(items))[n] == ItemEntry(items[i]).value.1
  {
    CollectPairsLastWins(items, ItemEntry, i, n);
  }

  /**
   * A falsy "numero" falls through to "num" and then to "id", and a `None`
   * situation is written as the text "None".
   */
  lemma ItemNumberFallThrough()
    ensures ItemEntry(DictItem(map["numero" := PyInt(0), "id" := PyStr(" 7 "), "situacion" := PyNone])) == Some((7, "None"))
  {
    var fields := map["numero" := PyInt(0), "id" := PyStr(" 7 "), "situacion" := PyNone];
    assert ItemNumber(fields) == PyStr(" 7 ");
    assert Strip(" 7 ") == "7" by {
      assert StripStart(" 7 ") == 1;
      assert StripEnd(" 7 ") == 2;
    }
    assert AllDigits("7") && DecimalValue("7") == 7;
  }

  // ------------------------------------------------------------------
  // Document control: the 22 items and their sheets
  // ------------------------------------------------------------------

  /** The fixed description of the item at index `k`, that is of item `k + 1`. */
  function ItemDescription(k: nat): string
    requires k < 22
  {
    match k
    case 0 => "Certificado vigente de medición de resistencia del sistema de puesta a tierra: ... (valor no debe exceder los 25 ohmios; firmado por profesional colegiado y habilitado)."
    case 1 => "Certificado de sistema de detección y alarma de incendios: cantidad y ubicación de detectores; incluye protocolo de pruebas de operatividad y/o mantenimiento; considerar NFPA 72 y Norma A.130 REN."
    case 2 => "Certificado de extintores: cantidad, ubicación, numeración, tipo y peso de los extintores instalados; incluye protocolos de operatividad y/o mantenimiento; Norma A.130 RNE y NTP 350.043-1."
    case 3 => "Protocolos de Pruebas de Operatividad y/o Mantenimiento del Sistema de Rociadores (literal A) art. 102 Norma A.130 RNE; NFPA 13."
    case 4 => "Protocolos de Pruebas de Operatividad y/o Mantenimiento del Sistema de Rociadores especiales tipo Spray (literal B) art. 102 Norma A.130 RNE; NFPA 15."
    case 5 => "Protocolos de Pruebas de Operatividad y/o Mantenimiento del Sistema de Redes Principales de Protección Contra Incendios enterradas (literal C) art. 102 Norma A.130 RNE; NFPA 24."
    case 6 => "Protocolos de Pruebas de Operatividad y/o Mantenimiento del Sistema de Montantes y Gabinetes de Agua Contra Incendio (literal H) art. 102 Norma A.130 RNE; NFPA 14."
    case 7 => "Protocolos de Pruebas de Operatividad y/o Mantenimiento de las Bombas de Agua Contra Incendio (art. 152 Norma A.130 RNE); NFPA 20; incluye pruebas de presión hidrostatica."
    case 8 => "Protocolo de pruebas de operatividad y/o mantenimiento de las luces de emergencia según Código Nacional de Electricidad – Normas de Utilización y manual del fabricante."
    case 9 => "Protocolo de pruebas de operatividad y/o las puertas cortafuego y sus dispositivos; certificación para uso cortafuego; Norma A.130 RNE; manual del fabricante."
    case 10 => "Protocolo de pruebas de operatividad y/o mantenimiento del sistema de administración de humos (literal b) Art. 94 de la Norma A.130 del RNE; Guía NFPA 92B."
    case 11 => "Protocolo de pruebas de operatividad y/o mantenimiento del sistema de Presurización de Escaleras de Evacuación; Norma A.130 del RNE; NFPA 92."
    case 12 => "Protocolo de pruebas de operatividad y/o mantenimiento del sistema Mecánico de Extracción de Monóxido de Carbono; art.69 Norma A.010; Condiciones Generales del Diseño del RNE."
    case 13 => "Protocolo de pruebas de operatividad y/o mantenimiento del Teléfono de Emergencia en Ascensor; art.30 Norma A.010; art.19 Norma A.130."
    case 14 => "Protocolo de pruebas de operatividad y/o mantenimiento del Teléfono de Bomberos; NFPA 72."
    case 15 => "Protocolo de pruebas de operatividad y/o mantenimiento de Ascensor, Montacarga, Escaleras mecánicas y equipos de elevación eléctrica; firmado por profesional colegiado y habilitado."
    case 16 => "Protocolo de pruebas de operatividad y/o mantenimiento de Equipos de Aire Acondicionado."
    case 17 => "Certificado de vidrios templados expedido por el fabricante."
    case 18 => "Certificado de laminado de vidrios y/o espejos."
    case 19 => "Constancia de registro de hidrocarburos emitido por OSINERGMIN y constancia de operatividad y mantenimiento de la red interna de GLP o líquido combustible. NTP 321.121."
    case 20 => "Certificado de pintura ignífuga en maderas."
    case _ => "OTROS (por ejemplo: Protocolo de aislamiento de tableros)."
  }

  /** `items_descriptions`: the descriptions of the 22 items, in order. */
  const ItemDescriptions: seq<string> := seq(22, k requires 0 <= k < 22 => ItemDescription(k))

  /** One row of the table: number, description and situation. */
  datatype ControlItem = ControlItem(num: nat, descripcion: string, situacion: string)

  /** `norm.get(n, 'NO APLICA')`. */
  function Situacion(norm: map<int, string>, n: int): string {
    if n in norm then norm[n] else "NO APLICA"
  }

  /** The items, numbered from 1, each with the situation given for its number. */
  function FullItems(descriptions: seq<string>, norm: map<int, string>): (items: seq<ControlItem>)
    ensures |items| == |descriptions|
  {
    seq(|descriptions|, k requires 0 <= k < |descriptions| =>
      ControlItem(k + 1, descriptions[k], Situacion(norm, k + 1)))
  }

  /** The loop that builds `full_items` from the descriptions. */
  method BuildFullItems(descriptions: seq<string>, norm: map<int, string>) returns (items: seq<ControlItem>)
    ensures items == FullItems(descriptions, norm)
  {
    items := [];
    for i := 0 to |descriptions|
      invariant items == FullItems(descriptions, norm)[..i]
    {
      items := items + [ControlItem(i + 1, descriptions[i], if i + 1 in norm then norm[i + 1] else "NO APLICA")];
    }
  }

  /** Python slicing `s[lo:hi]` for `0 <= lo <= hi`: both ends cut at the length. */
  function Slice<T>(s: seq<T>, lo: nat, hi: nat): (r: seq<T>)
    requires lo <= hi
    ensures |r| == (if hi < |s| then hi else |s|) - (if lo < |s| then lo else |s|)
  {
    var a, b := if lo < |s| then lo else |s|, if hi < |s| then hi else |s|;
    s[a..b]
  }

  /** The three candidate sheets, items 1 to 8, 9 to 16 and 17 to 22. */
  function ControlPages(items: seq<ControlItem>): seq<(string, seq<ControlItem>)> {
    [("CONTROL DOC. (1)", Slice(items, 0, 8)),
     ("CONTROL DOC. (2)", Slice(items, 8, 16)),
     ("CONTROL DOC. (3)", Slice(items, 16, 22))]
  }

  /** The pages that get a sheet: the non-empty ones, in order. */
  function NonEmptyPages(pages: seq<(string, seq<ControlItem>)>): (r: seq<(string, seq<ControlItem>)>)
    ensures |r| <= |pages|
    ensures forall k :: 0 <= k < |r| ==> r[k].1 != [] && r[k] in pages
  {
    if pages == [] then []
    else if pages[0].1 == [] then NonEmptyPages(pages[1..])
    else [pages[0]] + NonEmptyPages(pages[1..])
  }

  /**
   * The document-control sheets: none when the argument is falsy, otherwise
   * a sheet for each non-empty page of the 22 items.
   */
  method ControlDocSheets(docs: ControlDocs) returns (sheets: seq<(string, seq<ControlItem>)>)
    ensures !DocsTruthy(docs) ==> sheets == []
    ensures DocsTruthy(docs) ==> sheets == NonEmptyPages(ControlPages(FullItems(ItemDescriptions, Normalized(docs))))
  {
    sheets := [];
    if !DocsTruthy(docs) {
      return;
    }
    var norm := NormalizeControlDocs(docs);
    var items := BuildFullItems(ItemDescriptions, norm);
    var pages := ControlPages(items);
    for p := 0 to |pages|
      invariant sheets == NonEmptyPages(pages[..p])
    {
      NonEmptyPagesSnoc(pages, p);
      if pages[p].1 != [] {
        sheets := sheets + [pages[p]];
      }
    }
    assert pages[..|pages|] == pages;
  }

  lemma {:induction false} NonEmptyPagesSnoc(pages: seq<(string, seq<ControlItem>)>, p: nat)
    requires p < |pages|
    ensures NonEmptyPages(pages[..p + 1]) ==
      NonEmptyPages(pages[..p]) + (if pages[p].1 == [] then [] else [pages[p]])
  {
    if p > 0 {
      assert pages[..p + 1][1..] == pages[1..][..p];
      assert pages[..p][1..] == pages[1..][..p - 1];
      NonEmptyPagesSnoc(pages[1..], p - 1);
    } else {
      assert NonEmptyPages(pages[..0]) == [];
    }
  }

  /**
   * Whatever the input, a truthy argument gives exactly three sheets of 8,
   * 8 and 6 items, and the item at index `k` (number `k + 1`) is at
   * position `k % 8` of sheet `k / 8`.
   */
  lemma ControlSheetsLayout(descriptions: seq<string>, norm: map<int, string>)
    requires |descriptions| == 22
    ensures var sheets := NonEmptyPages(ControlPages(FullItems(descriptions, norm)));
      |sheets| == 3 &&
      sheets[0].0 == "CONTROL DOC. (1)" && sheets[1].0 == "CONTROL DOC. (2)" && sheets[2].0 == "CONTROL DOC. (3)" &&
      |sheets[0].1| == 8 && |sheets[1].1| == 8 && |sheets[2].1| == 6 &&
      forall k :: 0 <= k < 22 ==> sheets[k / 8].1[k % 8] == FullItems(descriptions, norm)[k]
  {
    var items := FullItems(descriptions, norm);
    var pages := ControlPages(items);
    assert |pages[0].1| == 8 && |pages[1].1| == 8 && |pages[2].1| == 6;
    assert pages[2..][1..] == [];
    assert NonEmptyPages(pages[2..]) == pages[2..];
    assert pages[1..][1..] == pages[2..];
    assert NonEmptyPages(pages[1..]) == pages[1..];
    assert NonEmptyPages(pages) == pages;
    forall k | 0 <= k < 22 ensures pages[k / 8].1[k % 8] == items[k] {
      assert k == (k / 8) * 8 + k % 8;
      assert k / 8 == 0 || k / 8 == 1 || k / 8 == 2;
    }
  }

  /** An item with no situation given is "NO APLICA"; otherwise it carries the given text. */
  lemma FullItemsSituacion(descriptions: seq<string>, norm: map<int, string>, n: nat)
    requires 1 <= n <= |descriptions|
    ensures FullItems(descriptions, norm)[n - 1] == ControlItem(n, descriptions[n - 1], Situacion(norm, n))
    ensures n !in norm ==> FullItems(descriptions, norm)[n - 1].situacion == "NO APLICA"
    ensures n in norm ==> FullItems(descriptions, norm)[n - 1].situacion == norm[n]
  {
  }

  // ------------------------------------------------------------------
  // Document control: the rows of one sheet
  // ------------------------------------------------------------------

  /** The fill of a situation cell. */
  datatype Fill = NoFill | Gray | Red | Green

  /**
   * The situation cell: its text and its fill, chosen by what the lower-cased
   * text contains, "no aplica" first, then the observation words, then the
   * words for compliance.
   */
  function SituacionCell(situacion: string): (string, Fill) {
    var low := Lower(situacion);
    if Contains(low, "no aplica") then
      (if Strip(situacion) == [] then "NO APLICA" else situacion, Gray)
    else if Contains(low, "observado") || Contains(low, "observación") || Contains(low, "observacion") then
      (situacion, Red)
    else if Contains(low, "correcto") || Contains(low, "cumple") then
      (situacion, Green)
    else (situacion, NoFill)
  }

  /** `pat in s` yields a position where `pat` starts. */
  lemma {:induction false} ContainsAt(s: string, pat: string) returns (i: nat)
    requires Contains(s, pat) && pat != []
    ensures i + |pat| <= |s| && s[i..i + |pat|] == pat && s[i] == pat[0]
    decreases |s|
  {
    if pat <= s {
      i := 0;
      assert s[..|pat|] == pat;
    } else {
      var j := ContainsAt(s[1..], pat);
      i := j + 1;
      assert s[i..i + |pat|] == s[1..][j..j + |pat|];
    }
  }

  /** `pat` cannot occur where no position that leaves room for it holds its first character. */
  lemma {:induction false} NotContainsFirst(s: string, pat: string)
    requires pat != []
    requires forall i :: 0 <= i && i + |pat| <= |s| ==> s[i] != pat[0]
    ensures !Contains(s, pat)
    decreases |s|
  {
    if s != [] {
      forall i | 0 <= i && i + |pat| <= |s| - 1 ensures s[1..][i] != pat[0] {
        assert s[1..][i] == s[i + 1];
      }
      NotContainsFirst(s[1..], pat);
      if |pat| <= |s| {
        assert s[0] != pat[0];
      }
    }
  }

  /**
   * The text of the cell is always the situation itself: "no aplica"
   * cannot occur in a text that is only white space, so the rewrite to
   * "NO APLICA" never happens.
   */
  lemma SituacionTextKept(situacion: string)
    ensures SituacionCell(situacion).0 == situacion
  {
    var low := Lower(situacion);
    if Contains(low, "no aplica") {
      var i := ContainsAt(low, "no aplica");
      assert LowerChar(situacion[i]) == 'n';
      assert NotSpace(situacion[i]);
    }
  }

  /** The default situation is gray, and so is any text containing it, whatever else it says. */
  lemma NoAplicaIsGray(situacion: string, i: nat)
    requires i + 9 <= |situacion| && Lower(situacion[i..i + 9]) == "no aplica"
    ensures SituacionCell(situacion).1 == Gray
  {
    NoAplicaFound(Lower(situacion), i);
  }

  lemma {:induction false} NoAplicaFound(low: string, i: nat)
    requires i + 9 <= |low| && low[i..i + 9] == "no aplica"
    ensures Contains(low, "no aplica")
    decreases i
  {
    if i > 0 {
      assert low[1..][i - 1..i + 8] == low[i..i + 9];
      NoAplicaFound(low[1..], i - 1);
    }
  }

  /** Upper-case accented text is recognised: "OBSERVACIÓN" is red. */
  lemma ObservacionIsRed()
    ensures SituacionCell("OBSERVACIÓN") == ("OBSERVACIÓN", Red)
  {
    LowerObservacion();
    var low := "observación";
    assert low[0] == 'o' && low[1] == 'b' && low[2] == 's';
    NotContainsFirst(low, "no aplica");
    assert low[..11] == "observación";
  }

  lemma LowerObservacion()
    ensures Lower("OBSERVACIÓN") == "observación"
  {
  }

  /** One written row of a document-control sheet. */
  datatype ControlRow = ControlRow(row: nat, number: string, descripcion: string, situacion: string, fill: Fill, height: nat)

  /** The lines a row is given: at least 2, enough for the description at 70 and the situation at 35 per line. */
  function RowLines(descripcion: string, situacion: string): nat {
    var d, s := VisualLines(descripcion, 70), VisualLines(situacion, 35);
    var m := if d < s then s else d;
    if m < 2 then 2 else m
  }

  /** The row for item `it` at sheet row `row`. */
  function RowFor(it: ControlItem, row: nat): ControlRow {
    var cell := SituacionCell(it.situacion);
    ControlRow(row, NatToDecimal(it.num), it.descripcion, cell.0, cell.1, 18 * RowLines(it.descripcion, cell.0))
  }

  /** The rows of a sheet holding `items`, the first at row 4. */
  function SheetRows(items: seq<ControlItem>): (rows: seq<ControlRow>)
    ensures |rows| == |items|
  {
    if items == [] then [] else SheetRows(items[..|items| - 1]) + [RowFor(items[|items| - 1], 3 + |items|)]
  }

  /** The row of the `k`-th item is row `4 + k`, built from that item alone. */
  lemma {:induction false} SheetRowsAt(items: seq<ControlItem>, k: nat)
    requires k < |items|
    ensures SheetRows(items)[k] == RowFor(items[k], 4 + k)
  {
    if k < |items| - 1 {
      SheetRowsAt(items[..|items| - 1], k);
    }
  }

  /**
   * The body of one sheet: the items from row 4 down, each row 18 points
   * per estimated line, and the print area ending at the last item's row.
   */
  method ControlSheetRows(items: seq<ControlItem>) returns (rows: seq<ControlRow>, lastRow: nat)
    ensures rows == SheetRows(items)
    ensures lastRow == 3 + |items|
  {
    var row := 4;
    rows := [];
    for i := 0 to |items|
      invariant row == 4 + i
      invariant rows == SheetRows(items[..i])
    {
      var r := WriteRow(items[i], row);
      assert items[..i + 1][..i] == items[..i];
      rows := rows + [r];
      row := row + 1;
    }
    assert items[..|items|] == items;
    lastRow := row - 1;
  }

  /** One row: the situation cell and the height estimated from both texts. */
  method WriteRow(it: ControlItem, row: nat) returns (r: ControlRow)
    ensures r == RowFor(it, row)
  {
    var cell := SituacionCell(it.situacion);
    var d := EstimateVisualLines(it.descripcion, 70);
    var s := EstimateVisualLines(cell.0, 35);
    var est := if d < s then s else d;
    est := if est < 2 then 2 else est;
    r := ControlRow(row, NatToDecimal(it.num), it.descripcion, cell.0, cell.1, 18 * est);
  }

  /** Every row is at least two lines (36 points) high and tall enough for its description. */
  lemma RowHeightBounds(it: ControlItem, row: nat)
    ensures RowFor(it, row).height >= 36
    ensures RowFor(it, row).height >= 18 * VisualLines(it.descripcion, 70)
    ensures RowFor(it, row).situacion == it.situacion
  {
    SituacionTextKept(it.situacion);
  }
}
