# Inspection photo report core, in Dafny

This project models the logic at the centre of an inspection-report desktop tool. The tool takes a photo archive with two text files of metadata and produces a spreadsheet report: photos grouped by official group name, a numbered sentence list summarising the findings of each group, recommended remediation texts, and a 22-item document-control table.

The model covers four pieces of the application:

- **Statement generator** (`nlg.dfy`, module `Nlg`).
  - Whitespace and case normalisation of finding texts.
  - Greedy single-pass clustering: an entry joins the first group whose similarity reaches the threshold, or founds a new group.
  - De-duplication of location labels and the Spanish join ("A", "A y B", "A, B y C").
  - The one-sentence template "<descripcion> en <variables>", with the first character upper-cased.
- **Recommendation engine** (`recommend.dfy`, module `Recommend`).
  - Case-insensitive column resolution, with an error when TAG or RECOMENDACIÓN is missing.
  - Token sets of the normalised texts.
  - Stage 1: the best tag by `0.7 * sim + 0.3 * jaccard`, with a 0.35 cut-off.
  - Stage 2: scoring the rows under that tag, keyword bonuses, the `min_score` filter, keeping the best score per recommendation text, the two descending sorts, and the `top_k` cut.
  - The engine is a class with read-only fields; `Suggest` and `Rank` are its methods.
- **Metadata parser and grouping** (`processing.dfy`, module `Processing`).
  - The `code<TAB>name` lookup from `grupos.txt`.
  - The line-driven state machine over `descriptions.txt`: a `[carpeta] file.jpg` header arms a block, and the next `description:` line emits one photo.
  - The regular expression of the header, with its lazy folder group and the greedy file name backing off to the last `.jpg`.
  - The bucketing of photos by group name, keys in order of first appearance.
- **Report rules** (`report.dfy`, module `Report`).
  - Project-info `key: value` parsing.
  - The natural sort key and the order of the group sheets.
  - Sheet-name sanitisation.
  - The estimate of wrapped text lines and the rows the detail cells span.
  - The photo grid: pages of 4 × 3 photos, each page followed by a spacer row.
  - The numbered detail entries handed to the statement generator.
  - Normalisation of the document-control argument.
  - The 22 items and their three sheets.
  - The colour of a "situación" cell and the height of each control row.

Shared modules:

- `text.dfy` (module `Text`): the Python string primitives used throughout, as total functions on `seq<char>`: `isspace`, `lower`/`upper`, `strip`, `split`, `splitlines`, `join`, order-keeping de-duplication, `str(n)`, `int(s)`, and the "fill a dict from parsed lines, later lines win" loop.
- `sorting.dfy` (module `Sorting`): Python's stable `sorted`, as an insertion sort.
- `wrappers.dfy`: `Option` and `Result`.

Inputs the original obtains by I/O are parameters:

- The archive members are already decoded to text.
- The project-info file is `Option<string>`; `None` means the file does not exist.
- The data table is a header plus rows of optional cells.
- `SequenceMatcher(None, a, b).ratio()` is a function parameter `ratio`. Lemmas that need it in [0, 1] say so with `RatioBounded`.

Scores and thresholds are `real`.

Two behaviours of the engine worth stating:

- The engine fails with `ValueError` when either the TAG column or the RECOMENDACIÓN/RECOMENDACION column is missing (app/core/recommend.py:27-33).
- Rows with an empty tag or recommendation are kept. An empty recommendation is dropped only when rows are ranked (app/core/recommend.py:110).

## Model

| member | source | states |
|---|---|---|
| Nlg.NormalizaWellFormed | app/utils/nlg_utils.py:71 | The normalised description is lower case, and every white-space character in it is a single ' ' with a non-space character on each side: no leading, trailing or repeated white space. |
| Nlg.NormalizaIdempotent | app/utils/nlg_utils.py:71 | Normalising an already normalised description changes nothing. |
| Text.RunsOfJoin | app/utils/nlg_utils.py:71 | Splitting the space-joined words again gives back exactly those words. |
| Nlg.FirstMatch | app/utils/nlg_utils.py:103-109 | The group chosen is the earliest-created group whose similarity reaches the threshold. Every earlier group is below the threshold, and when none is chosen every group is. |
| Nlg.AssignFirstFit | app/utils/nlg_utils.py:103-111 | When no group reaches the threshold, the entry founds a new group at the end, holding its raw text and its label. Otherwise its label is appended to the earliest group that reaches the threshold, which is inclusive. |
| Nlg.AssignExtends | app/utils/nlg_utils.py:103-111 | One step never moves a group or changes its reference text. A group's labels only grow at the end. |
| Nlg.Agrupar | app/utils/nlg_utils.py:99-112 | There are never more groups than entries, and a non-empty input gives at least one group. |
| Nlg.AsignarEntrada | app/utils/nlg_utils.py:101-111 | The scan over the groups, with `asignado` and `break`, computes exactly the clustering step. |
| Nlg.AgruparDescripciones | app/utils/nlg_utils.py:74-112 | The outer loop computes the clustering steps applied to the entries in input order. |
| Nlg.AgruparPartition | app/utils/nlg_utils.py:100-111 | The groups' labels taken together are a permutation of the input labels. Their number is `len(entradas)`, and no group is empty. |
| Nlg.AgruparGrowth | app/utils/nlg_utils.py:100-111 | The groups built from a prefix of the input are kept by the full run, in the same place and with the same reference text. Their labels can only be extended at the end, so groups stay in founding order and labels in input order. |
| Nlg.AgruparFounders | app/utils/nlg_utils.py:111 | Each group's reference text and first label come from the same input entry. The reference text is that entry's raw, unnormalised text. |
| Nlg.AgruparTwo | app/utils/nlg_utils.py:106 | The threshold is inclusive: two entries form one group exactly when the similarity of the second to the first reaches it. |
| Nlg.FormatearVariables | app/utils/nlg_utils.py:141-168 | The loop with its `seen` set gives "" for no labels. Otherwise it gives the join of the labels de-duplicated in first-occurrence order. |
| Text.Dedup | app/utils/nlg_utils.py:157-163 | The de-duplicated labels are the same labels, each exactly once, and never more of them than the input has. |
| Text.DedupPrefix | app/utils/nlg_utils.py:157-163 | De-duplicating a prefix of the input gives a prefix of the result, so first-occurrence order is kept. |
| Text.DedupAbsorbs | app/utils/nlg_utils.py:157-163 | Appending labels that are already present changes nothing. |
| Nlg.DedupOfDistinct | app/utils/nlg_utils.py:157-163 | Labels that are already distinct come out unchanged. |
| Nlg.FormatearIgnoresRepeats | app/utils/nlg_utils.py:155-163 | Repeated labels do not change the text: `["A", "B", "A"]` formats like `["A", "B"]`. |
| Nlg.FormatearJoinLaws | app/utils/nlg_utils.py:164-168 | For distinct labels, one label formats as itself. Two or more give the comma-joined list of all but the last, then " y ", then the last; for two labels that is "A y B". |
| Nlg.Redactar | app/utils/nlg_utils.py:182-191 | The sentence is never empty, so the `""` branch is unreachable. It is the description, " en " and the formatted labels; only its first character is upper-cased, and its length is the sum of those parts. |
| Nlg.AgrupaYRedacta | app/utils/nlg_utils.py:221-222 | One sentence per group, in group order. The result is empty exactly when the input is. |
| Recommend.Norm | app/core/recommend.py:9-12 | The result is no longer than the input, and each character in it is one that normalisation leaves unchanged: never a combining mark. |
| Recommend.NormIdempotent | app/core/recommend.py:9-12 | Normalising twice is normalising once. |
| Recommend.TokensAreAsciiWords | app/core/recommend.py:14-15 | Every token is non-empty and made only of `a`-`z` and `0`-`9`: accents are gone and upper case is lowered. |
| Recommend.TokenSet | app/core/recommend.py:35-38 | A token is in the set exactly when it is a token of the text and not a stopword. |
| Recommend.HeaderLookup | app/core/recommend.py:27-31 | Looking up an upper-case name finds a non-empty column exactly when some header column upper-cases to it. The column found is a header column with that upper-case form. |
| Recommend.ResolveColumns | app/core/recommend.py:27-33 | A failure always carries the message "Se requieren columnas TAG y RECOMENDACIÓN". |
| Recommend.ResolveColumnsFails | app/core/recommend.py:27-33 | Resolution fails exactly when no column upper-cases to TAG, or none upper-cases to RECOMENDACIÓN or RECOMENDACION. On success the tag and recommendation columns are header columns with those upper-case forms. |
| Recommend.RecommendationEngine.constructor | app/core/recommend.py:40-48 | One row record per input row, in input order, each built from that row's cells and token sets. |
| Recommend.NewEngine | app/core/recommend.py:25-48 | Construction fails exactly when column resolution fails, with its message. Otherwise the engine has the configuration, the resolved columns and one row record per input row. |
| Recommend.Jaccard | app/core/recommend.py:71-73 | The Jaccard index, with an empty union counted as 1, lies in [0, 1]. It is 0 for disjoint sets and 1 for equal non-empty sets. |
| Recommend.BestTagIsFirstMax | app/core/recommend.py:63-79 | The scan with the strict `>` keeps the first tag with the maximum score. No tag scores more, and every earlier tag scores strictly less. The score is at least -1.0, and while it is -1.0 the tag is still `""`. |
| Recommend.SelectedTagIsFirstMax | app/core/recommend.py:66-83 | A tag is selected exactly when the best score reaches 0.35. The selected tag is the first distinct tag, in row order, with the maximum `0.7 * sim + 0.3 * jaccard`. |
| Recommend.SuggestionsGate | app/core/recommend.py:81-83 | With no selected tag the result is `[]`. An engine without rows never selects a tag. |
| Recommend.ObsScoreBounds | app/core/recommend.py:93-103 | An empty observation scores 0.1. With a ratio in [0, 1], every score before the bonuses lies in [0, 1]. |
| Recommend.RecommendationEngine.Rank | app/core/recommend.py:90-111 | The loop over the rows, with its inner keyword loop, gives the candidate list: `(score, rec)` for every row under the tag with a non-empty recommendation and a score at least `min_score`, in row order. |
| Recommend.CandidatesMembers | app/core/recommend.py:90-111 | A pair is a candidate exactly when some qualifying row produced it. |
| Recommend.SeenRecs | app/core/recommend.py:113-116 | The `seen_recs` loop keeps the first pair of each recommendation text, in insertion order. |
| Recommend.KeepFirstRecs | app/core/recommend.py:113-116 | `seen_recs` keeps every recommendation text of its input, exactly once, with a pair taken from the input. |
| Recommend.KeepFirstSorted | app/core/recommend.py:113-116 | On input sorted by descending score, the kept pairs are still sorted. |
| Recommend.KeepFirstMax | app/core/recommend.py:113-116 | On input sorted by descending score, each kept text carries the highest score it has in the input. |
| Sorting.SortBy | app/core/recommend.py:114 | The sorted list is a permutation of its input. |
| Sorting.SortBySorted | app/core/recommend.py:114 | For a strict order the result is sorted. |
| Sorting.SortByStable | app/core/recommend.py:114 | The sort is stable: for a strict weak order, such as comparing by a key, the elements that compare equal to any given element come out in their input order. |
| Sorting.InsertTies | app/core/recommend.py:114 | Inserting into a sorted list puts the new element after every element that compares equal to it. |
| Recommend.DescWeak | app/core/recommend.py:114 | Comparing candidates by score is a strict weak order; two candidates compare equal exactly when their scores are equal. |
| Recommend.CandidatesSortStable | app/core/recommend.py:114 | The descending sort keeps the candidates that share a score in row order. |
| Sorting.SortByOfSorted | app/core/recommend.py:118 | Sorting an already sorted list leaves it unchanged, because the sort is stable. |
| Recommend.RankedIsKeepFirst | app/core/recommend.py:113-118 | The second sort is the identity: the ranked list is the `seen_recs` items of the sorted candidates. |
| Recommend.RankedOrder | app/core/recommend.py:113-118 | The ranked recommendation texts are pairwise distinct, and their scores never increase. |
| Recommend.RankedProvenance | app/core/recommend.py:91-118 | Every ranked pair is the score and recommendation of a row that carries the selected tag, has a non-empty recommendation and scores at least `min_score`. |
| Recommend.RankedComplete | app/core/recommend.py:91-118 | The recommendation of every qualifying row is ranked. |
| Recommend.RankedMax | app/core/recommend.py:113-118 | Each ranked text carries the maximum score among the rows under the tag that give it. |
| Recommend.PyHead | app/core/recommend.py:120 | Python's `s[:k]`: always a prefix of `s`. Its length is `min(k, len(s))` for `k >= 0`, and `max(len(s) + k, 0)` for a negative `k`. |
| Recommend.SuggestionsBound | app/core/recommend.py:120 | The result is a prefix of the ranked list. When `top_k >= 0` it holds no more than `top_k` pairs; a negative `top_k` drops pairs from the end instead (see `PyHead`). The configured `top_k` applies when the argument is omitted. |
| Recommend.RecommendationEngine.Suggest | app/core/recommend.py:53-120 | The method computes `Suggestions`: omitted arguments take the configured defaults (3 and 0.10), then the tag scan, the cut-off, the ranking, `seen_recs`, the sorts and the truncation. |
| Text.SplitLines | app/core/processing.py:29 | `splitlines`: no lines for empty text, never more lines than characters, and no line contains a line break. |
| Text.Strip | app/core/processing.py:30 | `strip` gives empty text exactly for all-white-space input. Otherwise the result starts and ends with a non-space character and is the slice between the first and last of them. |
| Text.SplitFirst | app/core/processing.py:33 | `split(c, 1)` finds nothing exactly when `c` is absent. Otherwise the pieces rebuild the text around the first `c`, and the first piece has no `c`. |
| Processing.ParseGroupLine | app/core/processing.py:30-37 | A line defines nothing exactly when its stripped text has no tab. Otherwise the code and the name are the stripped texts before and after the first tab. |
| Processing.CreateGroupLookup | app/core/processing.py:26-38 | The loop builds the dict of the parsed lines, each stored in turn. |
| Processing.GroupLookupKeys | app/core/processing.py:29-37 | A code is in the lookup exactly when some line with a tab yields it. Blank lines and lines without a tab are ignored. |
| Processing.GroupLookupLastWins | app/core/processing.py:37 | The name stored for a code is the one on the last line that defines it. |
| Text.CollectPairsKeys | app/core/processing.py:28-37 | A key is in a dict filled from parsed lines exactly when some line yields it. |
| Text.CollectPairsLastWins | app/core/processing.py:28-37 | The value stored under a key is the one from the last line that yields that key. |
| Text.CollectPairsValues | app/core/processing.py:28-37 | Every stored value comes from a line that yields its key. |
| Processing.LastJpg | app/core/processing.py:48 | The greedy `\S+` backs off to the last `.jpg`, in any letter case, that it can reach; none exists after the one chosen. |
| Processing.JpgName | app/core/processing.py:48 | A file name is a prefix of the non-space run, at least five characters long, ending in `.jpg` in any letter case. |
| Processing.HeaderFromAt | app/core/processing.py:48 | The lazy `(.+?)` stops at the first `]` that lets the rest of the pattern match. |
| Processing.FileAfterSpaces | app/core/processing.py:48 | The file name follows at least one white-space character, contains no white space and ends in `.jpg`. |
| Processing.HeaderAtShape | app/core/processing.py:48 | A match ending at a given `]` has the header shape, with the folder between `[` and that `]`. |
| Processing.MatchHeaderShape | app/core/processing.py:48 | A header match has the shape `[` folder `]`, white space, file name. The folder is non-empty, and no shorter folder lets the rest match. |
| Processing.DescriptionContentAfterPrefix | app/core/processing.py:51-52 | On a `description:` line, matched in any letter case, the content is the rest of the line after the prefix, stripped. |
| Processing.DescribedFotoFields | app/core/processing.py:52-67 | The content splits at its first tab: the code and the detail are the stripped parts, and with no tab the detail is `''`. The group name is the lookup's name for the code, else "Grupo no encontrado para '<code>'". The file name and folder come from the armed block. |
| Processing.StepSpec | app/core/processing.py:45-68 | A line emits a photo exactly when it is a non-header `description:` line and a block is armed, and emitting disarms the block. A header arms a block, and any other line changes nothing. |
| Processing.ParseDescriptions | app/core/processing.py:40-69 | The loop with its `bloque` state gives the photos the state machine emits over the lines, in emission order. |
| Processing.ParseCount | app/core/processing.py:45-69 | There are never more photos than description lines. A description line emits exactly when the lines before it left a block armed. |
| Processing.NoHeaderNoEmit | app/core/processing.py:49-68 | Once no block is armed, lines without a header emit nothing: a second description needs a new header. |
| Processing.EmitDisarms | app/core/processing.py:68 | A line that emits leaves no block armed. |
| Processing.FotosOf | app/core/processing.py:86 | A group holds exactly the photos with its name, each as many times as it occurs in the input, and no other photo. |
| Processing.NamedPositions | app/core/processing.py:83-86 | The positions of the photos with a given name: increasing, and covering every photo with that name. |
| Processing.FotosOfOrder | app/core/processing.py:83-86 | A group's photos are the photos at those increasing positions, one for one, so input order is kept. |
| Processing.GroupSizesTotal | app/core/processing.py:82-87 | The sizes of the groups, one per distinct name, add up to the number of photos. |
| Processing.GroupSizesSnoc | app/core/processing.py:86 | Appending a photo adds one to the total size of a set of distinct groups exactly when its group is among them. |
| Processing.GroupedStep | app/core/processing.py:83-86 | One `setdefault`-and-append step keeps the grouping invariant: keys in order of first appearance, one group per key, each group holding that key's photos. |
| Processing.GroupByName | app/core/processing.py:82-87 | The keys, in insertion order, are the distinct group names in order of first appearance. Each group's description is its key, its photos are that name's photos in input order, and its recommendations are empty. |
| Processing.GroupingPartition | app/core/processing.py:82-87 | Every photo is in exactly one group, the one keyed by its group name, and that key is present. |
| Processing.ProcesarZip | app/core/processing.py:71-89 | The lookup, the parse and the grouping together: the groups of the photos parsed from `descriptions.txt` with the names from `grupos.txt`. |
| Processing.NoDescriptionsNoGroups | app/core/processing.py:73 | A missing `descriptions.txt` is empty text, so there are no photos and no groups. |
| Report.UniversalNewlines | app/report/xlsx_writer.py:25-26 | Reading in text mode leaves no '\r' in the text. |
| Report.InfoEntry | app/report/xlsx_writer.py:27-29 | A line yields an entry exactly when it contains ':'. |
| Report.ReadProjectInfo | app/report/xlsx_writer.py:16-32 | An empty path or a missing file gives `{}`. Otherwise every line with a ':' sets one key, later lines overwriting earlier ones. |
| Report.ProjectInfoKeys | app/report/xlsx_writer.py:26-29 | A key is present exactly when a line with a ':' yields it; lines without one are ignored. |
| Report.ProjectInfoLastWins | app/report/xlsx_writer.py:29 | The value of a key is the stripped text after the first ':' on the last line that yields that key. |
| Report.ProjectInfoKeyForm | app/report/xlsx_writer.py:29 | Every key is lower case and has no white space at either end. |
| Text.SplitOn | app/report/xlsx_writer.py:474 | `split('\n')` gives at least one piece, none containing '\n', and joining the pieces with '\n' gives the text back. |
| Text.SplitOnJoin | app/report/xlsx_writer.py:474 | `split(c)` undoes `c.join(parts)` when no part contains `c`: the pieces are the parts again. |
| Report.SplitDigitRunsConcat | app/report/xlsx_writer.py:437 | `re.split('([0-9]+)', s)` loses nothing: its parts concatenate back to `s`. |
| Report.SplitDigitRunsKinds | app/report/xlsx_writer.py:437 | There is an odd number of parts. Parts at even positions contain no digit; parts at odd positions are non-empty digit runs. |
| Report.NaturalKeyAlternates | app/report/xlsx_writer.py:437 | The key alternates lower-cased text and integers: odd length, integers exactly at the odd positions. So two keys never compare an integer with a text. |
| Report.KeyOfGrupo2 | app/report/xlsx_writer.py:437 | The key of "grupo 2" is the text "grupo ", the number 2 and the empty text. |
| Report.KeyOfGrupo10 | app/report/xlsx_writer.py:437 | The key of "Grupo 10" is the lower-cased text "grupo ", the number 10 and the empty text. |
| Report.KeyOfTextNumber | app/report/xlsx_writer.py:437 | The key of any digit-free text followed by a number `n` is the lower-cased text, the integer `n` and an empty text. |
| Report.NaturalOrderByNumber | app/report/xlsx_writer.py:436-437 | Two names made of the same text, up to letter case, followed by numbers `a < b`, are ordered by the numbers. Digit runs compare as numbers, so "2" precedes "10". |
| Report.NaturalOrderExample | app/report/xlsx_writer.py:436-437 | An instance of the rule above: "grupo 2" sorts before "Grupo 10". |
| Report.LexLessAsymmetric | app/report/xlsx_writer.py:501 | Lexicographic `<` on lists is asymmetric when the element order is. |
| Report.LexLessTransitive | app/report/xlsx_writer.py:501 | Lexicographic `<` on lists is transitive when the element order is a strict order. |
| Report.PartLessStrict | app/report/xlsx_writer.py:437 | Python's `<` on key elements is a strict order. |
| Report.GroupBeforeStrict | app/report/xlsx_writer.py:501 | Comparing groups by the natural key of their names is a strict order. |
| Report.SortedGroupsOrder | app/report/xlsx_writer.py:501 | The sheets are the groups, each once, sorted by the natural key of their names. |
| Report.LexLessTotal | app/report/xlsx_writer.py:501 | Lexicographic `<` relates any two different lists when the element order relates any two different elements. |
| Report.GroupBeforeWeak | app/report/xlsx_writer.py:501 | Comparing groups by the natural key of their names is a strict weak order; two groups compare equal exactly when their names have the same key (as "Grupo 1" and "grupo 1", or "G01" and "G1"). |
| Report.SortedGroupsStable | app/report/xlsx_writer.py:501 | `sorted` is stable: groups whose names have the same natural key keep their dict order among the sheets. |
| Report.CeilDivSpec | app/report/xlsx_writer.py:475 | `math.ceil(a / b)` is the least `q` with `q * b >= a`, and it lies between 1 and `a` for `a > 0`. |
| Report.EstimateVisualLines | app/report/xlsx_writer.py:468-476 | The loop gives 1 for empty text or `chars_per_line <= 0`. Otherwise it gives the sum over the '\n'-separated segments of `ceil(len / cpl)`, an empty segment counting 1. |
| Report.SumLinesBounds | app/report/xlsx_writer.py:474-475 | The segments together take at least one line each, and at most their total length plus one line each. |
| Report.VisualLinesBounds | app/report/xlsx_writer.py:468-476 | The estimate is at least 1. For non-empty text and a positive width it is at least the number of segments and at most one more than the length of the text. |
| Report.ReplaceChar | app/report/xlsx_writer.py:509 | `replace(c, r)` keeps the length and replaces exactly the occurrences of `c`. |
| Report.SheetName | app/report/xlsx_writer.py:506-511 | The title has length `min(len(gname), 31)`. Each character is the name's, with each of `/ \ ? * [ ]` turned into '-', so none of them remains. |
| Report.PlacePhotos | app/report/xlsx_writer.py:544-604 | Every photo is placed exactly once, in input order: photo `j` is on page `j // 12`, row `4 + 4 * (j // 12) + (j % 12) // 4`, column `(j % 12) % 4 + 1`. After the grid the current row is `4 + 4 * ceil(n / 12) + 1`. |
| Report.PageSlot | app/report/xlsx_writer.py:553-567 | Chunk index `k` of page `p` is photo `12p + k`, at row `k // 4` and column `k % 4` of that page. |
| Report.PhotoCellInGrid | app/report/xlsx_writer.py:555-567 | Photos are only in columns A to D, never above row 4, and never on the spacer row that closes a page. |
| Report.PhotoCellsDistinct | app/report/xlsx_writer.py:564-567 | No two photos share a cell. |
| Report.PhotoAboveDetails | app/report/xlsx_writer.py:602-607 | Every photo lies above the details header row. |
| Report.DetailAfterPlusSpec | app/report/xlsx_writer.py:621 | With a '+' in the detail, the text kept is everything after the first '+', stripped. |
| Report.DetailWithoutPlus | app/report/xlsx_writer.py:621 | Without a '+' the detail is kept as it is. |
| Report.BuildEntradas | app/report/xlsx_writer.py:618-622 | One entry per photo in order: the text after the '+' and the label `"<carpeta> [Foto i]"`, with `i` counting from 1. |
| Text.DecimalRoundTrip | app/report/xlsx_writer.py:622 | Reading back the decimal form of `i` gives `i`. |
| Text.DecimalInjective | app/report/xlsx_writer.py:622 | Distinct numbers have distinct decimal forms. |
| Report.FotoLabelShape | app/report/xlsx_writer.py:622 | A label is `len(carpeta) + 8 + len(str(i))` characters long and ends with a space, the decimal form of `i` and ']'. |
| Report.FotoLabelNumber | app/report/xlsx_writer.py:622 | Equal labels have equal numbers, whatever their folders. |
| Report.EntradaLabelsDistinct | app/report/xlsx_writer.py:619-622 | The labels of one group's entries are pairwise distinct. |
| Report.NeededRowsBounds | app/report/xlsx_writer.py:631-635 | The content cells span at least 8 rows, and at least the estimated lines of either text (so at least its number of lines). |
| Report.DetailsLines | app/report/xlsx_writer.py:625 | The details text is empty exactly when there are no sentences. When no sentence holds a line break, its lines are the sentences in order, the k-th written `"{k}. {sentence}"` from 1. |
| Report.RecommendationsLines | app/report/xlsx_writer.py:627-628 | The recommendations text is "—" exactly when there are no recommendations. When none holds a line break, its lines are the recommendations in order, each written `"• {r}"`. |
| Report.GroupContent | app/report/xlsx_writer.py:618-635 | The sentences are `agrupa_y_redacta` of the photos' entries at the threshold 0.8. The details text is empty exactly when the group has no photos, and the recommendations text is "—" exactly when it has no recommendations. The cells span `max(8, lines of details, lines of recommendations)` rows at 70 characters a line: at least 8, and at least one row per sentence and per recommendation when none holds a line break. |
| Text.ParseIntSeparators | app/report/xlsx_writer.py:774 | `int()` fails on a leading U+001C separator but skips a leading no-break space. |
| Text.ParseIntRoundTrip | app/report/xlsx_writer.py:774 | `int(str(n)) == n` for every integer. |
| Report.DictEntry | app/report/xlsx_writer.py:772-777 | A dict entry is kept exactly when `int(key)` succeeds. |
| Report.NormalizeControlDocs | app/report/xlsx_writer.py:770-794 | The loops give the `norm` dict: dict entries or list elements, each stored in turn; any other argument gives an empty dict. |
| Report.NormalizedKeys | app/report/xlsx_writer.py:778-794 | A number is in `norm` exactly when some list element yields it. |
| Report.NormalizedLastWins | app/report/xlsx_writer.py:788-794 | The situation of a number is the one from the last element that yields it. |
| Report.ItemNumberFallThrough | app/report/xlsx_writer.py:781-788 | A falsy `numero` falls through to `num` and then `id`; `int(" 7 ")` is 7, and a `None` situation is written "None". |
| Report.FullItems | app/report/xlsx_writer.py:797-799 | One item per description. |
| Report.BuildFullItems | app/report/xlsx_writer.py:797-799 | The loop builds the items numbered from 1, each with its description and its situation, which defaults to 'NO APLICA'. |
| Report.FullItemsSituacion | app/report/xlsx_writer.py:799 | Item `n` has number `n`, the `n`-th description, and the given situation, or 'NO APLICA' when none is given. |
| Report.Slice | app/report/xlsx_writer.py:803-805 | Python slicing `s[lo:hi]` has length `min(hi, len) - min(lo, len)`. |
| Report.NonEmptyPages | app/report/xlsx_writer.py:807-810 | Only non-empty pages get a sheet, each taken from the candidate pages. |
| Report.ControlDocSheets | app/report/xlsx_writer.py:741-810 | A falsy argument gives no sheets. Otherwise there is one sheet per non-empty page of the 22 numbered items. |
| Report.ControlSheetsLayout | app/report/xlsx_writer.py:797-806 | With the 22 descriptions there are exactly three sheets, "CONTROL DOC. (1)" to "(3)", of 8, 8 and 6 items, and item `k + 1` is at position `k % 8` of sheet `k / 8`. |
| Report.SituacionTextKept | app/report/xlsx_writer.py:716-723 | The cell text is always the situation itself. "no aplica" cannot occur in all-white-space text, so the rewrite to 'NO APLICA' never happens. |
| Report.NoAplicaIsGray | app/report/xlsx_writer.py:719-720 | Any text containing "no aplica", in any letter case, is gray, whatever else it says. |
| Report.ObservacionIsRed | app/report/xlsx_writer.py:724-725 | Upper-case accented text is recognised: "OBSERVACIÓN" is red and kept as written. |
| Report.WriteRow | app/report/xlsx_writer.py:709-732 | One row: the number, the description, the situation text and fill, and the height `18 * max(2, lines at 70, lines at 35)`. |
| Report.SheetRowsAt | app/report/xlsx_writer.py:707-733 | The `k`-th item goes to row `4 + k`, built from that item alone. |
| Report.ControlSheetRows | app/report/xlsx_writer.py:706-737 | The loop writes the item rows from row 4 down, and the print area ends at row `3 + len(items)`. |
| Report.RowHeightBounds | app/report/xlsx_writer.py:731-732 | Every row is at least 36 points high, and high enough for its description at 70 characters per line. |

## Left out

- Spreadsheet layout: fonts, fills as colours, borders, merges, column widths, page setup, the title row height, the header cells and the print-area string. Only the values that decide them are modelled: row numbers, fills as an enumeration, and row heights of the control sheets.
- Images: the lookup of a photo's bytes among candidate archive paths, and the PIL decoding and resizing. These are foreign library calls and floating-point geometry. The model places each photo in its cell, but does not model whether an image or the "carpeta/filename" text goes there.
- The group-sheet title row height and the fixed 16-point content rows: plain layout constants.
- The "6. CONCLUSIONES" block on the last control sheet: layout only; its row heights use the modelled `estimate_visual_lines`.
- The progress callback: a UI signal.
- Sheet titles that openpyxl renames when two groups sanitise to the same title: a library behaviour.
- File and archive I/O: the archive is read by `cargar_zip`, and the recommendation table by `load_engine`/`pandas.read_csv`. The UTF-8 decode with `errors="ignore"` and `open()` in `read_project_info` are also I/O. The model receives already-decoded text.
- The `path_tmp` field of a photo: the modelled code never sets it, so the model's photo record leaves it out.
- pandas: the model receives the header and the rows with NaN as `None`, and leaves out what `str()` does to non-string cells.
- The dead `_score` placeholder of the engine. `RecConfig` is an immutable value; the shared mutable default of the original is not modelled.
- `SequenceMatcher.ratio` (`Nlg.Ratio`, `Recommend.Ratio`): a function parameter, not the difflib algorithm.
- Recommend.Norm: does not model full Unicode. Case mapping covers ASCII and the Latin-1 letters; decomposition folds the accented Latin-1 lower-case letters to their base letters and drops the combining marks U+0300..U+036F. Other scripts, and letters whose case mapping changes the length, are left as they are.
- Text.Lower: does not model full Unicode `str.lower()`; it covers ASCII and the Latin-1 letters only.
- Text.Upper: does not model full Unicode `str.upper()`; it covers ASCII and the Latin-1 letters, and leaves unchanged the ones whose upper case lies outside Latin-1 or is two characters ('ß' becomes "SS" in Python). This also applies to the first letter `Nlg.Redactar` upper-cases.
- Text.ParseInt: does not model Python's `int()` on underscores or non-ASCII digits. It models one optional sign and ASCII digits, with the white space `int()` skips around them: that of `str.isspace()` except U+001C..U+001F, which make `int()` fail.
- Report.NaturalKey: does not model `str.isdigit()` on non-ASCII digits. The model treats a part as a number exactly when it is an ASCII digit run. Python would also call `int()` on a text part made only of other Unicode digits, and raise for some of them.
- Report.ControlDocs: does not model values other than `None`, booleans, integers and strings in the document-control argument (floats, nested containers), or an exception raised by `str()` or by `.get` on a user type. The order of a dict's entries is given explicitly.
- Scores are exact `real` numbers, not IEEE doubles, so ties and the 0.35 and `min_score` comparisons are exact.
