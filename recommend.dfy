/**
 * The recommendation engine: a table of TAG / OBSERVACION / RECOMENDACION /
 * FUENTE rows, and `suggest`, which first picks the tag that best matches a
 * query and then ranks the recommendations filed under that tag.
 *
 * `SequenceMatcher(None, a, b).ratio()` is the parameter `ratio`; scores are
 * `real`.
 */
module Recommend {
  import opened Wrappers
  import opened Text
  import opened Sorting

  /** A string-similarity ratio, `SequenceMatcher(None, a, b).ratio()`. */
  type Ratio = (string, string) -> real

  /** `SequenceMatcher.ratio` always lies in [0, 1]. */
  ghost predicate RatioBounded(ratio: Ratio) {
    forall a, b :: 0.0 <= ratio(a, b) <= 1.0
  }

  // ------------------------------------------------------------------
  // _norm, _tokens
  // ------------------------------------------------------------------

  /** A combining diacritical mark (U+0300..U+036F), of category `Mn`. */
  predicate IsCombining(c: char) {
    '\U{0300}' <= c <= '\U{036F}'
  }

  /** The base letter of a lower-case Latin-1 letter whose canonical decomposition is a letter and a mark. */
  function FoldAccent(c: char): char {
    if '\U{E0}' <= c <= '\U{E5}' then 'a'
    else if c == '\U{E7}' then 'c'
    else if '\U{E8}' <= c <= '\U{EB}' then 'e'
    else if '\U{EC}' <= c <= '\U{EF}' then 'i'
    else if c == '\U{F1}' then 'n'
    else if '\U{F2}' <= c <= '\U{F6}' then 'o'
    else if '\U{F9}' <= c <= '\U{FC}' then 'u'
    else if c == '\U{FD}' || c == '\U{FF}' then 'y'
    else c
  }

  /** One character through `lower()`, NFD and the removal of its marks. */
  function NormChar(c: char): char {
    FoldAccent(LowerChar(c))
  }

  /** `_norm`: lower-case, decompose, drop the combining marks. */
  function Norm(s: string): (r: string)
    ensures |r| <= |s|
    ensures forall k :: 0 <= k < |r| ==> NormChar(r[k]) == r[k] && !IsCombining(r[k])
  {
    if s == [] then []
    else if IsCombining(s[0]) then Norm(s[1..])
    else [NormChar(s[0])] + Norm(s[1..])
  }

  lemma {:induction false} NormOfNormal(s: string)
    requires forall k :: 0 <= k < |s| ==> NormChar(s[k]) == s[k] && !IsCombining(s[k])
    ensures Norm(s) == s
  {
    if s != [] {
      NormOfNormal(s[1..]);
      assert [s[0]] + s[1..] == s;
    }
  }

  /** Normalising twice is normalising once. */
  lemma NormIdempotent(s: string)
    ensures Norm(Norm(s)) == Norm(s)
  {
    NormOfNormal(Norm(s));
  }

  /** A character of the token regular expression `[a-zA-ZáéíóúñüÁÉÍÓÚÑÜ0-9]`. */
  predicate IsWordChar(c: char) {
    || 'a' <= c <= 'z' || 'A' <= c <= 'Z' || '0' <= c <= '9'
    || c == '\U{E1}' || c == '\U{E9}' || c == '\U{ED}' || c == '\U{F3}' || c == '\U{FA}' || c == '\U{F1}' || c == '\U{FC}'
    || c == '\U{C1}' || c == '\U{C9}' || c == '\U{CD}' || c == '\U{D3}' || c == '\U{DA}' || c == '\U{D1}' || c == '\U{DC}'
  }

  /** `_tokens`: the maximal runs of word characters of the normalised text (`re.findall`). */
  function Tokens(s: string): seq<string> {
    Runs(Norm(s), IsWordChar)
  }

  /** After normalisation only lower-case ASCII letters and digits are left inside a token. */
  lemma TokensAreAsciiWords(s: string)
    ensures forall k :: 0 <= k < |Tokens(s)| ==> Tokens(s)[k] != []
    ensures forall k, m :: 0 <= k < |Tokens(s)| && 0 <= m < |Tokens(s)[k]| ==>
      ('a' <= Tokens(s)[k][m] <= 'z' || '0' <= Tokens(s)[k][m] <= '9')
  {
    var n := Norm(s);
    var ts := Tokens(s);
    forall k, m | 0 <= k < |ts| && 0 <= m < |ts[k]|
      ensures 'a' <= ts[k][m] <= 'z' || '0' <= ts[k][m] <= '9'
    {
      var c := ts[k][m];
      RunsChars(n, IsWordChar, k, m);
      var j :| 0 <= j < |n| && n[j] == c;
      NormalWordChar(c);
    }
  }

  /** A word character that normalisation leaves alone is a lower-case ASCII letter or a digit. */
  lemma NormalWordChar(c: char)
    requires IsWordChar(c) && NormChar(c) == c
    ensures 'a' <= c <= 'z' || '0' <= c <= '9'
  {
  }

  lemma {:induction false} RunsChars(s: string, inRun: char -> bool, k: nat, m: nat)
    requires k < |Runs(s, inRun)| && m < |Runs(s, inRun)[k]|
    ensures Runs(s, inRun)[k][m] in s
    decreases |s|
  {
    if !inRun(s[0]) {
      RunsChars(s[1..], inRun, k, m);
    } else {
      var n := RunLength(s, inRun);
      if k == 0 {
        assert Runs(s, inRun)[0] == s[..n];
      } else {
        assert Runs(s, inRun)[k] == Runs(s[n..], inRun)[k - 1];
        RunsChars(s[n..], inRun, k - 1, m);
      }
    }
  }

  /** The token set of a text, without the stopwords (`toks`). */
  function TokenSet(s: string, stopwords: set<string>): (ts: set<string>)
    ensures forall t :: t in ts <==> t in Tokens(s) && t !in stopwords
  {
    set t | t in Tokens(s) && t !in stopwords
  }

  // ------------------------------------------------------------------
  // RecConfig and the table
  // ------------------------------------------------------------------

  /** `RecConfig`; `stopwords=None` is the empty set and `keyword_boost=None` the empty list of pairs. */
  datatype RecConfig = RecConfig(minScore: real, topK: int, stopwords: set<string>, keywordBoost: seq<(string, real)>)

  /** `RecConfig()` with its defaults. */
  const DefaultConfig: RecConfig := RecConfig(0.10, 3, {}, [])

  /** One data row: column name to cell, `None` for a missing value (NaN). */
  type Record = map<string, Option<string>>

  /** The input table: the header in column order and the rows. */
  datatype Table = Table(header: seq<string>, records: seq<Record>)

  /** The resolved column names; `obs` and `src` are optional columns. */
  datatype Columns = Columns(tag: string, obs: Option<string>, rec: string, src: Option<string>)

  const MissingColumns: string := "Se requieren columnas TAG y RECOMENDACI\U{D3}N"

  function HeaderEntry(c: string): Option<(string, string)> {
    Some((Upper(c), c))
  }

  /** `{c.upper(): c for c in df.columns}`: a later column wins over an earlier one with the same upper-case name. */
  function HeaderMap(header: seq<string>): map<string, string> {
    CollectPairs(header, HeaderEntry)
  }

  function Lookup(m: map<string, string>, k: string): Option<string> {
    if k in m then Some(m[k]) else None
  }

  /** A column name that Python treats as true: present and non-empty. */
  predicate Truthy(o: Option<string>) {
    o.Some? && o.value != ""
  }

  /** Python's `a or b` on two `cols.get(...)` results. */
  function OrElse(a: Option<string>, b: Option<string>): Option<string> {
    if Truthy(a) then a else b
  }

  /** Some column of the header upper-cases to `k`. */
  predicate HasHeader(header: seq<string>, k: string) {
    exists c :: c in header && Upper(c) == k
  }

  /** The column resolution of the constructor, with the `ValueError` as `Failure`. */
  function ResolveColumns(header: seq<string>): (r: Result<Columns, string>)
    ensures r.Failure? ==> r.error == MissingColumns
  {
    var m := HeaderMap(header);
    var tag := Lookup(m, "TAG");
    var obs := OrElse(Lookup(m, "OBSERVACION"), Lookup(m, "OBSERVACI\U{D3}N"));
    var rec := OrElse(Lookup(m, "RECOMENDACI\U{D3}N"), Lookup(m, "RECOMENDACION"));
    var src := Lookup(m, "FUENTE");
    if Truthy(tag) && Truthy(rec) then Success(Columns(tag.value, obs, rec.value, src))
    else Failure(MissingColumns)
  }

  lemma HeaderLookup(header: seq<string>, k: string)
    requires k != []
    ensures Truthy(Lookup(HeaderMap(header), k)) <==> HasHeader(header, k)
    ensures k in HeaderMap(header) ==> Upper(HeaderMap(header)[k]) == k && HeaderMap(header)[k] in header
  {
    CollectPairsKeys(header, HeaderEntry, k);
    if k in HeaderMap(header) {
      CollectPairsValues(header, HeaderEntry, k);
      var i :| DefinesKey(header, HeaderEntry, i, k) && HeaderMap(header)[k] == HeaderEntry(header[i]).value.1;
      assert |HeaderMap(header)[k]| == |k|;
    }
    if HasHeader(header, k) {
      var c :| c in header && Upper(c) == k;
      var i :| 0 <= i < |header| && header[i] == c;
      assert DefinesKey(header, HeaderEntry, i, k);
    }
  }

  /**
   * Construction fails exactly when no column upper-cases to TAG, or none
   * upper-cases to RECOMENDACIÓN or RECOMENDACION; otherwise the resolved
   * names are columns of the header with those upper-case forms.
   */
  lemma ResolveColumnsFails(header: seq<string>)
    ensures ResolveColumns(header).Failure? <==>
      !HasHeader(header, "TAG") || !(HasHeader(header, "RECOMENDACI\U{D3}N") || HasHeader(header, "RECOMENDACION"))
    ensures ResolveColumns(header).Success? ==>
      var cols := ResolveColumns(header).value;
      && cols.tag in header && Upper(cols.tag) == "TAG"
      && cols.rec in header && (Upper(cols.rec) == "RECOMENDACI\U{D3}N" || Upper(cols.rec) == "RECOMENDACION")
  {
    HeaderLookup(header, "TAG");
    HeaderLookup(header, "RECOMENDACI\U{D3}N");
    HeaderLookup(header, "RECOMENDACION");
  }

  /** One row record of `self.rows`. */
  datatype Row = Row(tag: string, obs: string, rec: string, src: string, tokTag: set<string>, tokObs: set<string>)

  /** `str(r[col]) if pd.notna(r[col]) else ""`. */
  function Cell(r: Record, col: string): string {
    if col in r && r[col].Some? then r[col].value else ""
  }

  /** The same for an optional column: `""` when the table has no such column. */
  function OptCell(r: Record, col: Option<string>): string {
    if Truthy(col) then Cell(r, col.value) else ""
  }

  /** The row record the constructor appends for one input row. */
  function MakeRow(r: Record, cols: Columns, stopwords: set<string>): Row {
    var tag := Cell(r, cols.tag);
    var obs := OptCell(r, cols.obs);
    Row(tag, obs, Cell(r, cols.rec), OptCell(r, cols.src), TokenSet(tag, stopwords), TokenSet(obs, stopwords))
  }

  // ------------------------------------------------------------------
  // Scoring
  // ------------------------------------------------------------------

  /** `len(a & b) / (len(a | b) or 1)`. */
  function Jaccard(a: set<string>, b: set<string>): (j: real)
    ensures 0.0 <= j <= 1.0
    ensures a * b == {} ==> j == 0.0
    ensures a == b && a != {} ==> j == 1.0
  {
    var inter := |a * b|;
    var union := |a + b|;
    SubsetCard(a * b, a + b);
    var d := if union == 0 then 1 else union;
    RatioOfCounts(inter, d);
    assert a == b ==> a * b == a && a + b == a;
    inter as real / d as real
  }

  lemma RatioOfCounts(n: nat, d: nat)
    requires 0 < d && n <= d
    ensures 0.0 <= n as real / d as real <= 1.0
    ensures n == 0 ==> n as real / d as real == 0.0
    ensures n == d ==> n as real / d as real == 1.0
  {
  }

  lemma SubsetCard(x: set<string>, y: set<string>)
    requires x <= y
    ensures |x| <= |y|
  {
    assert y == x + (y - x);
  }

  /** The stage-1 score of a tag: `0.7 * sim + 0.3 * jaccard`. */
  function TagScore(ratio: Ratio, query: string, qTokens: set<string>, tag: string, tokTag: set<string>): real {
    0.7 * ratio(Norm(query), Norm(tag)) + 0.3 * Jaccard(qTokens, tokTag)
  }

  /** The tags of the rows, in row order. */
  function Tags(rows: seq<Row>): (ts: seq<string>)
    ensures |ts| == |rows|
    ensures forall k :: 0 <= k < |rows| ==> ts[k] == rows[k].tag
  {
    seq(|rows|, k requires 0 <= k < |rows| => rows[k].tag)
  }

  /** The value `unique_tags[tag]` gets: the token set of the last row with that tag. */
  function LastTokTag(rows: seq<Row>, tag: string): set<string> {
    if rows == [] then {}
    else if rows[|rows| - 1].tag == tag then rows[|rows| - 1].tokTag
    else LastTokTag(rows[..|rows| - 1], tag)
  }

  /** The threshold under which no tag is selected. */
  const TagThreshold: real := 0.35

  /** The best tag and its score after scanning `tags` with a strict `>`, from `("", -1.0)`. */
  function BestTag(tags: seq<string>, rows: seq<Row>, ratio: Ratio, query: string, qTokens: set<string>): (string, real) {
    if tags == [] then ("", -1.0)
    else
      var b := BestTag(tags[..|tags| - 1], rows, ratio, query, qTokens);
      var t := tags[|tags| - 1];
      var s := TagScore(ratio, query, qTokens, t, LastTokTag(rows, t));
      if s > b.1 then (t, s) else b
  }

  /** `tags[i]` is the tag of `b` and scores `b`'s score, and every earlier tag scores strictly less. */
  predicate IsFirstMax(tags: seq<string>, rows: seq<Row>, ratio: Ratio, query: string, qTokens: set<string>, i: int, b: (string, real)) {
    && 0 <= i < |tags| && b.0 == tags[i]
    && b.1 == TagScore(ratio, query, qTokens, tags[i], LastTokTag(rows, tags[i]))
    && forall j :: 0 <= j < i ==> TagScore(ratio, query, qTokens, tags[j], LastTokTag(rows, tags[j])) < b.1
  }

  /**
   * The scan keeps the first tag with the maximum score: no tag scores more,
   * every earlier tag scores strictly less, and with no tag (or none above
   * -1.0) the result stays `("", -1.0)`.
   */
  lemma {:induction false} BestTagIsFirstMax(tags: seq<string>, rows: seq<Row>, ratio: Ratio, query: string, qTokens: set<string>)
    ensures var b := BestTag(tags, rows, ratio, query, qTokens);
      && b.1 >= -1.0
      && (forall j :: 0 <= j < |tags| ==> TagScore(ratio, query, qTokens, tags[j], LastTokTag(rows, tags[j])) <= b.1)
      && (b.1 == -1.0 ==> b.0 == "")
      && (b.1 > -1.0 ==> exists i :: IsFirstMax(tags, rows, ratio, query, qTokens, i, b))
  {
    if tags != [] {
      var init := tags[..|tags| - 1];
      BestTagIsFirstMax(init, rows, ratio, query, qTokens);
      var b := BestTag(init, rows, ratio, query, qTokens);
      var t := tags[|tags| - 1];
      var s := TagScore(ratio, query, qTokens, t, LastTokTag(rows, t));
      assert forall j :: 0 <= j < |init| ==> init[j] == tags[j];
      if s > b.1 {
        assert IsFirstMax(tags, rows, ratio, query, qTokens, |tags| - 1, (t, s));
      } else if b.1 > -1.0 {
        var i :| IsFirstMax(init, rows, ratio, query, qTokens, i, b);
        assert IsFirstMax(tags, rows, ratio, query, qTokens, i, b);
      }
    }
  }

  /** The stage-2 context: the selected tag, the query tokens, the text compared with observations, the bonuses, the floor and the ratio. */
  datatype Ranking = Ranking(tag: string, qObs: set<string>, diffText: string, boost: seq<(string, real)>, minScore: real, ratio: Ratio)

  /** The sum of the bonuses of the keywords in the token set. */
  function Boost(kb: seq<(string, real)>, q: set<string>): real {
    if kb == [] then 0.0
    else Boost(kb[..|kb| - 1], q) + (if kb[|kb| - 1].0 in q then kb[|kb| - 1].1 else 0.0)
  }

  /** The score before the bonuses: 0.1 for an empty observation, else `0.6 * jaccard + 0.4 * sim`. */
  function ObsScore(row: Row, ctx: Ranking): real {
    if row.obs == "" then 0.1
    else 0.6 * Jaccard(ctx.qObs, row.tokObs) + 0.4 * ctx.ratio(Norm(ctx.diffText), Norm(row.obs))
  }

  /** With a ratio in [0, 1] the score before the bonuses lies in [0, 1]. */
  lemma ObsScoreBounds(row: Row, ctx: Ranking)
    requires RatioBounded(ctx.ratio)
    ensures 0.0 <= ObsScore(row, ctx) <= 1.0
    ensures row.obs == "" ==> ObsScore(row, ctx) == 0.1
  {
    if row.obs != "" {
      var s := ctx.ratio(Norm(ctx.diffText), Norm(row.obs));
      assert 0.0 <= s <= 1.0;
    }
  }

  function RowScore(row: Row, ctx: Ranking): real {
    ObsScore(row, ctx) + Boost(ctx.boost, ctx.qObs)
  }

  /** A row is ranked when it carries the selected tag and a non-empty recommendation scoring at least the floor. */
  predicate Qualifies(row: Row, ctx: Ranking) {
    row.tag == ctx.tag && row.rec != "" && RowScore(row, ctx) >= ctx.minScore
  }

  /** The `out` list of stage 2: `(score, rec)` for every qualifying row, in row order. */
  function Candidates(rows: seq<Row>, ctx: Ranking): seq<(real, string)> {
    if rows == [] then []
    else
      var c := Candidates(rows[..|rows| - 1], ctx);
      var row := rows[|rows| - 1];
      if Qualifies(row, ctx) then c + [(RowScore(row, ctx), row.rec)] else c
  }

  /** A pair is a candidate exactly when some qualifying row produced it. */
  lemma {:induction false} CandidatesMembers(rows: seq<Row>, ctx: Ranking, p: (real, string))
    ensures p in Candidates(rows, ctx) <==>
      exists i :: 0 <= i < |rows| && Qualifies(rows[i], ctx) && p == (RowScore(rows[i], ctx), rows[i].rec)
  {
    if rows != [] {
      var init := rows[..|rows| - 1];
      CandidatesMembers(init, ctx, p);
      assert forall i :: 0 <= i < |init| ==> init[i] == rows[i];
      if p in Candidates(init, ctx) {
        var i :| 0 <= i < |init| && Qualifies(init[i], ctx) && p == (RowScore(init[i], ctx), init[i].rec);
        assert Qualifies(rows[i], ctx);
      }
    }
  }

  /** Descending by score, as `sorted(..., key=score, reverse=True)`. */
  function Desc(x: (real, string), y: (real, string)): bool {
    x.0 > y.0
  }

  lemma DescStrict()
    ensures StrictOrder(Desc)
  {
  }

  /** Comparing by score is a strict weak order, and two pairs tie exactly when their scores are equal. */
  lemma DescWeak()
    ensures StrictWeakOrder(Desc)
    ensures forall p, q :: Tied(p, q, Desc) <==> p.0 == q.0
  {
  }

  /**
   * The descending sort is stable: the candidates with any one score keep
   * their row order.
   */
  lemma CandidatesSortStable(rows: seq<Row>, ctx: Ranking, score: real)
    ensures Ties(SortBy(Candidates(rows, ctx), Desc), (score, ""), Desc) == Ties(Candidates(rows, ctx), (score, ""), Desc)
    ensures forall p :: Tied(p, (score, ""), Desc) <==> p.0 == score
  {
    DescWeak();
    SortByStable(Candidates(rows, ctx), (score, ""), Desc);
  }

  function RecsOf(s: seq<(real, string)>): set<string> {
    set x | x in s :: x.1
  }

  /** The `seen_recs` dict filled in order, as its list of items: the first pair of each recommendation. */
  function KeepFirst(s: seq<(real, string)>): seq<(real, string)> {
    if s == [] then []
    else
      var p := KeepFirst(s[..|s| - 1]);
      if s[|s| - 1].1 in RecsOf(p) then p else p + [s[|s| - 1]]
  }

  /** `seen_recs` keeps every recommendation of its input, once, with a pair taken from the input. */
  lemma {:induction false} KeepFirstRecs(s: seq<(real, string)>)
    ensures RecsOf(KeepFirst(s)) == RecsOf(s)
    ensures forall x :: x in KeepFirst(s) ==> x in s
    ensures forall i, j :: 0 <= i < j < |KeepFirst(s)| ==> KeepFirst(s)[i].1 != KeepFirst(s)[j].1
  {
    if s != [] {
      var init := s[..|s| - 1];
      var last := s[|s| - 1];
      var p := KeepFirst(init);
      KeepFirstRecs(init);
      assert s == init + [last];
      assert RecsOf(s) == RecsOf(init) + {last.1};
      if last.1 !in RecsOf(p) {
        var r := p + [last];
        assert RecsOf(r) == RecsOf(p) + {last.1};
        forall i, j | 0 <= i < j < |r| ensures r[i].1 != r[j].1 {
          if j == |p| {
            assert r[i] in p;
          }
        }
      }
    }
  }

  /** On input sorted by descending score, `seen_recs` stays sorted. */
  lemma {:induction false} KeepFirstSorted(s: seq<(real, string)>)
    requires Sorted(s, Desc)
    ensures Sorted(KeepFirst(s), Desc)
  {
    if s != [] {
      var init := s[..|s| - 1];
      var last := s[|s| - 1];
      var p := KeepFirst(init);
      assert Sorted(init, Desc);
      KeepFirstSorted(init);
      KeepFirstRecs(init);
      if last.1 !in RecsOf(p) {
        var r := p + [last];
        forall i, j | 0 <= i < j < |r| ensures !Desc(r[j], r[i]) {
          if j == |p| {
            assert r[i] in init;
            var k :| 0 <= k < |init| && init[k] == r[i];
            assert s[k] == r[i];
          }
        }
      }
    }
  }

  /** On input sorted by descending score, each recommendation keeps its highest score. */
  lemma {:induction false} KeepFirstMax(s: seq<(real, string)>)
    requires Sorted(s, Desc)
    ensures forall x, y :: x in KeepFirst(s) && y in s && y.1 == x.1 ==> y.0 <= x.0
  {
    if s != [] {
      var init := s[..|s| - 1];
      var last := s[|s| - 1];
      var p := KeepFirst(init);
      assert Sorted(init, Desc);
      KeepFirstMax(init);
      KeepFirstRecs(init);
      assert s == init + [last];
      assert forall x :: x in init ==> x.0 >= last.0 by {
        forall x | x in init ensures x.0 >= last.0 {
          var k :| 0 <= k < |init| && init[k] == x;
          assert s[k] == x;
        }
      }
      forall x, y | x in KeepFirst(s) && y in s && y.1 == x.1 ensures y.0 <= x.0 {
        if y == last {
          if x != last {
            assert x in p;
          }
        } else {
          assert y in init;
          assert x in p;
        }
      }
    }
  }

  /** Python's `s[:k]`, where a negative `k` counts from the end. */
  function PyHead<T>(s: seq<T>, k: int): (r: seq<T>)
    ensures r <= s
    ensures k >= 0 ==> |r| == if k < |s| then k else |s|
    ensures k < 0 ==> |r| == if |s| + k > 0 then |s| + k else 0
  {
    if k >= 0 then (if k < |s| then s[..k] else s)
    else if |s| + k > 0 then s[..|s| + k] else []
  }

  /** The ranked list after `seen_recs` and the second `sorted`, before truncation. */
  function Ranked(rows: seq<Row>, ctx: Ranking): seq<(real, string)> {
    SortBy(KeepFirst(SortBy(Candidates(rows, ctx), Desc)), Desc)
  }

  /** The tag `suggest` selects, if its score reaches the threshold. */
  function SelectedTag(rows: seq<Row>, cfg: RecConfig, query: string, ratio: Ratio): Option<string> {
    var best := BestTag(Dedup(Tags(rows)), rows, ratio, query, TokenSet(query, cfg.stopwords));
    if best.1 < TagThreshold then None else Some(best.0)
  }

  /** The stage-2 context for a selected tag. */
  function RankingFor(tag: string, cfg: RecConfig, query: string, extra: string, minScore: Option<real>, ratio: Ratio): Ranking {
    Ranking(
      tag,
      TokenSet(Strip(query + " " + extra), cfg.stopwords),
      if extra != "" then extra else query,
      cfg.keywordBoost,
      if minScore.Some? then minScore.value else cfg.minScore,
      ratio)
  }

  /** What `suggest(query, extra_text, top_k, min_score)` returns; `None` stands for an omitted argument. */
  function Suggestions(rows: seq<Row>, cfg: RecConfig, query: string, extra: string, topK: Option<int>, minScore: Option<real>, ratio: Ratio): seq<(real, string)> {
    match SelectedTag(rows, cfg, query, ratio)
    case None => []
    case Some(tag) =>
      PyHead(Ranked(rows, RankingFor(tag, cfg, query, extra, minScore, ratio)), if topK.Some? then topK.value else cfg.topK)
  }

  /** Without rows, or when the best tag scores under 0.35, there is no suggestion. */
  lemma SuggestionsGate(rows: seq<Row>, cfg: RecConfig, query: string, extra: string, topK: Option<int>, minScore: Option<real>, ratio: Ratio)
    ensures SelectedTag(rows, cfg, query, ratio).None? ==> Suggestions(rows, cfg, query, extra, topK, minScore, ratio) == []
    ensures rows == [] ==> SelectedTag(rows, cfg, query, ratio).None?
  {
  }

  /** The selected tag is the first distinct tag, in row order, with the maximum stage-1 score, and that score reaches 0.35. */
  lemma SelectedTagIsFirstMax(rows: seq<Row>, cfg: RecConfig, query: string, ratio: Ratio)
    ensures var q := TokenSet(query, cfg.stopwords);
      var tags := Dedup(Tags(rows));
      var b := BestTag(tags, rows, ratio, query, q);
      SelectedTag(rows, cfg, query, ratio).Some? <==> b.1 >= TagThreshold
    ensures var q := TokenSet(query, cfg.stopwords);
      var tags := Dedup(Tags(rows));
      var b := BestTag(tags, rows, ratio, query, q);
      SelectedTag(rows, cfg, query, ratio).Some? ==>
        && SelectedTag(rows, cfg, query, ratio).value == b.0
        && (exists i :: IsFirstMax(tags, rows, ratio, query, q, i, b))
        && (forall j :: 0 <= j < |tags| ==> TagScore(ratio, query, q, tags[j], LastTokTag(rows, tags[j])) <= b.1)
  {
    BestTagIsFirstMax(Dedup(Tags(rows)), rows, ratio, query, TokenSet(query, cfg.stopwords));
  }

  /** The ranked recommendations are pairwise distinct and their scores do not increase. */
  lemma RankedOrder(rows: seq<Row>, ctx: Ranking)
    ensures forall i, j :: 0 <= i < j < |Ranked(rows, ctx)| ==> Ranked(rows, ctx)[i].1 != Ranked(rows, ctx)[j].1
    ensures forall i, j :: 0 <= i < j < |Ranked(rows, ctx)| ==> Ranked(rows, ctx)[i].0 >= Ranked(rows, ctx)[j].0
  {
    var sc := SortBy(Candidates(rows, ctx), Desc);
    RankedIsKeepFirst(rows, ctx);
    KeepFirstRecs(sc);
    KeepFirstSorted(sc);
    var r := Ranked(rows, ctx);
    forall i, j | 0 <= i < j < |r| ensures r[i].0 >= r[j].0 {
      assert !Desc(r[j], r[i]);
    }
  }

  lemma SortedMembers(c: seq<(real, string)>)
    ensures forall p :: p in SortBy(c, Desc) <==> p in c
  {
    var sc := SortBy(c, Desc);
    forall p ensures p in sc <==> p in c {
      assert p in sc <==> p in multiset(sc);
    }
  }

  lemma RankedIsKeepFirst(rows: seq<Row>, ctx: Ranking)
    ensures Sorted(SortBy(Candidates(rows, ctx), Desc), Desc)
    ensures Ranked(rows, ctx) == KeepFirst(SortBy(Candidates(rows, ctx), Desc))
  {
    var sc := SortBy(Candidates(rows, ctx), Desc);
    DescStrict();
    SortBySorted(Candidates(rows, ctx), Desc);
    KeepFirstSorted(sc);
    SortByOfSorted(KeepFirst(sc), Desc);
  }

  /** Every ranked pair is the score and recommendation of a qualifying row. */
  lemma RankedProvenance(rows: seq<Row>, ctx: Ranking)
    ensures forall p :: p in Ranked(rows, ctx) ==> exists i :: 0 <= i < |rows| && Qualifies(rows[i], ctx) && p == (RowScore(rows[i], ctx), rows[i].rec)
  {
    var sc := SortBy(Candidates(rows, ctx), Desc);
    RankedIsKeepFirst(rows, ctx);
    KeepFirstRecs(sc);
    SortedMembers(Candidates(rows, ctx));
    forall p | p in Ranked(rows, ctx)
      ensures exists i :: 0 <= i < |rows| && Qualifies(rows[i], ctx) && p == (RowScore(rows[i], ctx), rows[i].rec)
    {
      CandidatesMembers(rows, ctx, p);
    }
  }

  /** Every qualifying row's recommendation is ranked. */
  lemma RankedComplete(rows: seq<Row>, ctx: Ranking)
    ensures forall i :: 0 <= i < |rows| && Qualifies(rows[i], ctx) ==> rows[i].rec in RecsOf(Ranked(rows, ctx))
  {
    var sc := SortBy(Candidates(rows, ctx), Desc);
    RankedIsKeepFirst(rows, ctx);
    KeepFirstRecs(sc);
    SortedMembers(Candidates(rows, ctx));
    forall i | 0 <= i < |rows| && Qualifies(rows[i], ctx) ensures rows[i].rec in RecsOf(Ranked(rows, ctx)) {
      var p := (RowScore(rows[i], ctx), rows[i].rec);
      CandidatesMembers(rows, ctx, p);
      assert p in sc;
      assert rows[i].rec in RecsOf(sc);
    }
  }

  /** Each ranked recommendation carries the highest score of the rows under the tag that give it. */
  lemma RankedMax(rows: seq<Row>, ctx: Ranking)
    ensures forall p, i :: p in Ranked(rows, ctx) && 0 <= i < |rows| && rows[i].tag == ctx.tag && rows[i].rec == p.1 ==> RowScore(rows[i], ctx) <= p.0
  {
    var sc := SortBy(Candidates(rows, ctx), Desc);
    RankedIsKeepFirst(rows, ctx);
    KeepFirstMax(sc);
    KeepFirstRecs(sc);
    SortedMembers(Candidates(rows, ctx));
    forall p, i | p in Ranked(rows, ctx) && 0 <= i < |rows| && rows[i].tag == ctx.tag && rows[i].rec == p.1
      ensures RowScore(rows[i], ctx) <= p.0
    {
      CandidatesMembers(rows, ctx, p);
      var y := (RowScore(rows[i], ctx), rows[i].rec);
      if Qualifies(rows[i], ctx) {
        CandidatesMembers(rows, ctx, y);
        assert y in sc;
      }
    }
  }

  /**
   * The result is a prefix of the ranked list and, when `top_k >= 0`, holds
   * no more than `top_k` pairs (a negative `top_k` drops that many from the
   * end instead, as `PyHead` states).
   */
  lemma SuggestionsBound(rows: seq<Row>, cfg: RecConfig, query: string, extra: string, topK: Option<int>, minScore: Option<real>, ratio: Ratio)
    ensures var k := if topK.Some? then topK.value else cfg.topK;
      var r := Suggestions(rows, cfg, query, extra, topK, minScore, ratio);
      && (k >= 0 ==> |r| <= k)
      && (SelectedTag(rows, cfg, query, ratio).Some? ==>
            r <= Ranked(rows, RankingFor(SelectedTag(rows, cfg, query, ratio).value, cfg, query, extra, minScore, ratio)))
  {
  }

  // ------------------------------------------------------------------
  // RecommendationEngine
  // ------------------------------------------------------------------

  class RecommendationEngine {
    const cfg: RecConfig
    const columns: Columns
    const rows: seq<Row>

    /** `__init__` once the columns are resolved: one row record per input row, in input order. */
    constructor (records: seq<Record>, columns: Columns, cfg: RecConfig)
      ensures this.cfg == cfg && this.columns == columns
      ensures |rows| == |records|
      ensures forall k :: 0 <= k < |records| ==> rows[k] == MakeRow(records[k], columns, cfg.stopwords)
    {
      this.cfg := cfg;
      this.columns := columns;
      var rs: seq<Row> := [];
      for i := 0 to |records|
        invariant |rs| == i
        invariant forall k :: 0 <= k < i ==> rs[k] == MakeRow(records[k], columns, cfg.stopwords)
      {
        rs := rs + [MakeRow(records[i], columns, cfg.stopwords)];
      }
      this.rows := rs;
    }

    /** `suggest`: the tag scan, the row ranking, `seen_recs`, the two sorts and the truncation. */
    method Suggest(query: string, extra: string, topK: Option<int>, minScore: Option<real>, ratio: Ratio) returns (r: seq<(real, string)>)
      ensures r == Suggestions(rows, cfg, query, extra, topK, minScore, ratio)
    {
      var k := if topK.Some? then topK.value else cfg.topK;
      var qTag := TokenSet(query, cfg.stopwords);
      var bestScore := -1.0;
      var bestTag := "";
      var uniqueTags := Dedup(Tags(rows));
      for i := 0 to |uniqueTags|
        invariant (bestTag, bestScore) == BestTag(uniqueTags[..i], rows, ratio, query, qTag)
      {
        var tag := uniqueTags[i];
        var tagScore := TagScore(ratio, query, qTag, tag, LastTokTag(rows, tag));
        if tagScore > bestScore {
          bestScore := tagScore;
          bestTag := tag;
        }
        assert uniqueTags[..i + 1][..i] == uniqueTags[..i];
      }
      assert uniqueTags[..|uniqueTags|] == uniqueTags;
      if bestScore < TagThreshold {
        return [];
      }
      var ctx := RankingFor(bestTag, cfg, query, extra, minScore, ratio);
      var out := Rank(ctx);
      var ordered := SortBy(out, Desc);
      var items := SeenRecs(ordered);
      var final := SortBy(items, Desc);
      r := PyHead(final, k);
    }

    /** The stage-2 loop over the rows, with the keyword loop inside it. */
    method Rank(ctx: Ranking) returns (out: seq<(real, string)>)
      ensures out == Candidates(rows, ctx)
    {
      out := [];
      for i := 0 to |rows|
        invariant out == Candidates(rows[..i], ctx)
      {
        var row := rows[i];
        if row.tag == ctx.tag {
          var score: real;
          if row.obs == "" {
            score := 0.1;
          } else {
            var jObs := Jaccard(ctx.qObs, row.tokObs);
            var diffObs := ctx.ratio(Norm(ctx.diffText), Norm(row.obs));
            score := 0.6 * jObs + 0.4 * diffObs;
          }
          ghost var base := score;
          for b := 0 to |ctx.boost|
            invariant score == base + Boost(ctx.boost[..b], ctx.qObs)
          {
            var (kw, bonus) := ctx.boost[b];
            if kw in ctx.qObs {
              score := score + bonus;
            }
            assert ctx.boost[..b + 1][..b] == ctx.boost[..b];
          }
          assert ctx.boost[..|ctx.boost|] == ctx.boost;
          if row.rec != "" && score >= ctx.minScore {
            out := out + [(score, row.rec)];
          }
        }
        assert rows[..i + 1][..i] == rows[..i];
      }
      assert rows[..|rows|] == rows;
    }
  }

  /** The `seen_recs` loop: a dict from recommendation to its first score, then its items in insertion order. */
  method SeenRecs(ordered: seq<(real, string)>) returns (items: seq<(real, string)>)
    ensures items == KeepFirst(ordered)
  {
    var seen: map<string, real> := map[];
    var order: seq<string> := [];
    for i := 0 to |ordered|
      invariant |order| == |KeepFirst(ordered[..i])|
      invariant forall j :: 0 <= j < |order| ==> order[j] in seen && KeepFirst(ordered[..i])[j] == (seen[order[j]], order[j])
      invariant forall x :: x in seen <==> x in RecsOf(KeepFirst(ordered[..i]))
    {
      var (score, rec) := ordered[i];
      assert ordered[..i + 1][..i] == ordered[..i];
      if rec !in seen {
        seen := seen[rec := score];
        order := order + [rec];
      }
    }
    assert ordered[..|ordered|] == ordered;
    items := seq(|order|, j requires 0 <= j < |order| && order[j] in seen reads {} => (seen[order[j]], order[j]));
  }

  /** `RecommendationEngine(df, cfg)`: `ValueError` when the TAG or the RECOMENDACIÓN column is missing. */
  method NewEngine(table: Table, cfg: RecConfig) returns (r: Result<RecommendationEngine, string>)
    ensures r.Failure? <==> ResolveColumns(table.header).Failure?
    ensures r.Failure? ==> r.error == MissingColumns
    ensures r.Success? ==> fresh(r.value) && r.value.cfg == cfg && r.value.columns == ResolveColumns(table.header).value
    ensures r.Success? ==> |r.value.rows| == |table.records|
    ensures r.Success? ==> forall k :: 0 <= k < |table.records| ==> r.value.rows[k] == MakeRow(table.records[k], r.value.columns, cfg.stopwords)
  {
    match ResolveColumns(table.header)
    case Failure(e) =>
      return Failure(e);
    case Success(cols) =>
      var engine := new RecommendationEngine(table.records, cols, cfg);
      return Success(engine);
  }
}
