/**
 * The archive metadata: `grupos.txt` (numbering code TAB official group
 * name), `descriptions.txt` (a `[carpeta] file.jpg` header line arms a
 * block, the next `description:` line emits one photo), and the bucketing of
 * the photos by official group name.
 *
 * The archive members are given already decoded, as a map from member name
 * to text.
 */
module Processing {
  import opened Wrappers
  import opened Text

  /** `Foto`; `path_tmp` is always `None` here and is not modelled. */
  datatype Foto = Foto(filename: string, groupName: string, specificDetail: string, carpeta: string)

  /** `Grupo`: its description is its key; `recomendaciones` stays empty. */
  datatype Grupo = Grupo(descripcion: string, fotos: seq<Foto>, recomendaciones: seq<string>)

  // ------------------------------------------------------------------
  // _create_group_lookup
  // ------------------------------------------------------------------

  /** One line of `grupos.txt`: the stripped parts around its first tab, if the stripped line has one. */
  function ParseGroupLine(line: string): (r: Option<(string, string)>)
    ensures r.None? <==> '\t' !in Strip(line)
    ensures r.Some? ==> exists a, b :: a + "\t" + b == Strip(line) && '\t' !in a && r.value == (Strip(a), Strip(b))
  {
    var t := Strip(line);
    if t == [] then None
    else
      match SplitFirst(t, '\t')
      case None => None
      case Some((a, b)) => Some((Strip(a), Strip(b)))
  }

  /** `_create_group_lookup`: a later line with the same code overwrites an earlier one. */
  method CreateGroupLookup(txtGrupos: string) returns (lookup: map<string, string>)
    ensures lookup == CollectPairs(SplitLines(txtGrupos), ParseGroupLine)
  {
    var lines := SplitLines(txtGrupos);
    lookup := map[];
    for i := 0 to |lines|
      invariant lookup == CollectPairs(lines[..i], ParseGroupLine)
    {
      var line := lines[i];
      CollectPairsSnoc(lines, ParseGroupLine, i);
      if Strip(line) == [] {
        continue;
      }
      var parts := SplitFirst(Strip(line), '\t');
      if parts.Some? {
        var key := Strip(parts.value.0);
        var value := Strip(parts.value.1);
        lookup := lookup[key := value];
      }
    }
    assert lines[..|lines|] == lines;
  }

  /**
   * A code is in the lookup exactly when some line defines it, and then its
   * name is the one on the last line that does.
   */
  lemma GroupLookupLastWins(txtGrupos: string, i: int, code: string)
    requires DefinesKey(SplitLines(txtGrupos), ParseGroupLine, i, code)
    requires forall j :: i < j < |SplitLines(txtGrupos)| ==> !DefinesKey(SplitLines(txtGrupos), ParseGroupLine, j, code)
    ensures var lookup := CollectPairs(SplitLines(txtGrupos), ParseGroupLine);
      code in lookup && lookup[code] == ParseGroupLine(SplitLines(txtGrupos)[i]).value.1
  {
    CollectPairsLastWins(SplitLines(txtGrupos), ParseGroupLine, i, code);
  }

  /** Blank lines and lines without a tab define nothing. */
  lemma GroupLookupKeys(txtGrupos: string, code: string)
    ensures code in CollectPairs(SplitLines(txtGrupos), ParseGroupLine) <==>
      exists i :: 0 <= i < |SplitLines(txtGrupos)| && '\t' in Strip(SplitLines(txtGrupos)[i])
        && ParseGroupLine(SplitLines(txtGrupos)[i]).value.0 == code
  {
    var lines := SplitLines(txtGrupos);
    CollectPairsKeys(lines, ParseGroupLine, code);
    if exists i :: 0 <= i < |lines| && '\t' in Strip(lines[i]) && ParseGroupLine(lines[i]).value.0 == code {
      var i :| 0 <= i < |lines| && '\t' in Strip(lines[i]) && ParseGroupLine(lines[i]).value.0 == code;
      assert DefinesKey(lines, ParseGroupLine, i, code);
    }
  }

  // ------------------------------------------------------------------
  // The header regular expression `\[(.+?)\]\s+(\S+\.jpg)` with re.I
  // ------------------------------------------------------------------

  /** `.jpg`, in any letter case, starts at `q`. */
  predicate JpgAt(r: string, q: nat) {
    q + 4 <= |r| && r[q] == '.' && (r[q + 1] == 'j' || r[q + 1] == 'J')
    && (r[q + 2] == 'p' || r[q + 2] == 'P') && (r[q + 3] == 'g' || r[q + 3] == 'G')
  }

  /** The greedy `\S+` backing off: the largest `q` in [1, from] with `.jpg` at `q`. */
  function LastJpg(r: string, from: nat): (q: Option<nat>)
    ensures q.Some? ==> 1 <= q.value <= from && JpgAt(r, q.value)
    ensures forall k :: (if q.Some? then q.value < k else 1 <= k) && k <= from ==> !JpgAt(r, k)
  {
    if from == 0 then None
    else if JpgAt(r, from) then Some(from)
    else LastJpg(r, from - 1)
  }

  /** The filename `\S+\.jpg` takes from a run of non-space characters. */
  function JpgName(run: string): (f: Option<string>)
    ensures f.Some? ==> 5 <= |f.value| <= |run| && f.value == run[..|f.value|] && JpgAt(f.value, |f.value| - 4)
  {
    if |run| < 5 then None
    else
      match LastJpg(run, |run| - 4)
      case None => None
      case Some(q) => Some(run[..q + 4])
  }

  /** The run of non-space characters that starts at `i`: what the greedy `\S+` can take. */
  function NonSpaceRun(line: string, i: nat): (run: string)
    requires i <= |line|
    ensures i + |run| <= |line| && run == line[i..i + |run|]
    ensures forall k :: 0 <= k < |run| ==> NotSpace(run[k])
  {
    line[i..i + RunLength(line[i..], NotSpace)]
  }

  /** `\s+(\S+\.jpg)` from position `i`: the file name after at least one white-space character. */
  function FileAfter(line: string, i: nat): (f: Option<string>)
    requires i <= |line|
  {
    var n := RunLength(line[i..], IsSpace);
    if n == 0 then None else JpgName(NonSpaceRun(line, i + n))
  }

  /** The match once the lazy `(.+?)` ends before the `]` at `e`. */
  function HeaderAt(line: string, e: nat): (m: Option<(string, string)>)
    requires 2 <= e < |line|
  {
    if line[e] != ']' then None
    else
      match FileAfter(line, e + 1)
      case None => None
      case Some(f) => Some((line[1..e], f))
  }

  /** The lazy group tries each `]` from the left; the first that lets the rest match wins. */
  function HeaderFrom(line: string, e: nat): (m: Option<(string, string)>)
    requires 2 <= e
    decreases |line| - e
  {
    if e >= |line| then None
    else match HeaderAt(line, e)
      case Some(m) => Some(m)
      case None => HeaderFrom(line, e + 1)
  }

  /** `re.match(r'\[(.+?)\]\s+(\S+\.jpg)', line, flags=re.I)`: the folder and the file name. */
  function MatchHeader(line: string): (m: Option<(string, string)>) {
    if |line| < 2 || line[0] != '[' then None else HeaderFrom(line, 2)
  }

  /** From `i`: `n >= 1` white-space characters, then `filename`. */
  ghost predicate SpacesThenFile(line: string, i: nat, n: nat, filename: string) {
    && 1 <= n && i + n + |filename| <= |line|
    && (forall k :: i <= k < i + n ==> IsSpace(line[k]))
    && line[i + n..i + n + |filename|] == filename
  }

  /**
   * The shape of a header match: the line starts with "[" + folder + "]",
   * then `n` white-space characters, then the file name; the folder is not empty, and the
   * file name has no white space and ends with ".jpg" in any letter case.
   */
  ghost predicate HeaderShape(line: string, carpeta: string, n: nat, filename: string) {
    && carpeta != [] && 5 <= |filename|
    && JpgAt(filename, |filename| - 4)
    && (forall k :: 0 <= k < |filename| ==> NotSpace(filename[k]))
    && |carpeta| + 2 <= |line| && line[0] == '[' && line[1..|carpeta| + 1] == carpeta && line[|carpeta| + 1] == ']'
    && SpacesThenFile(line, |carpeta| + 2, n, filename)
  }

  /** A match has the header shape, and its folder is the shortest one that lets the rest match. */
  lemma MatchHeaderShape(line: string) returns (n: nat)
    requires MatchHeader(line).Some?
    ensures HeaderShape(line, MatchHeader(line).value.0, n, MatchHeader(line).value.1)
    ensures forall e :: 2 <= e < |MatchHeader(line).value.0| + 1 ==> HeaderAt(line, e).None?
  {
    var end := HeaderFromAt(line, 2);
    n := HeaderAtShape(line, end);
  }

  /** The lazy search stops at the first `]` that lets the rest match. */
  lemma {:induction false} HeaderFromAt(line: string, e: nat) returns (end: nat)
    requires 2 <= e && HeaderFrom(line, e).Some?
    ensures e <= end < |line| && HeaderFrom(line, e) == HeaderAt(line, end)
    ensures forall e' :: e <= e' < end ==> HeaderAt(line, e').None?
    decreases |line| - e
  {
    if HeaderAt(line, e).Some? {
      end := e;
    } else {
      end := HeaderFromAt(line, e + 1);
    }
  }

  lemma HeaderAtShape(line: string, e: nat) returns (n: nat)
    requires 2 <= e < |line| && line[0] == '['
    requires HeaderAt(line, e).Some?
    ensures |HeaderAt(line, e).value.0| + 1 == e
    ensures HeaderShape(line, HeaderAt(line, e).value.0, n, HeaderAt(line, e).value.1)
  {
    var f;
    n, f := FileAfterSpaces(line, e + 1);
    var carpeta := line[1..e];
    assert line[e] == ']';
    assert FileAfter(line, e + 1) == Some(f);
    assert HeaderAt(line, e) == Some((carpeta, f));
    assert |carpeta| + 1 == e && line[1..|carpeta| + 1] == carpeta;
    assert SpacesThenFile(line, |carpeta| + 2, n, f);
    assert HeaderShape(line, carpeta, n, f);
  }

  /** What `FileAfter` matched: `n` white-space characters, then the file name `f`. */
  lemma FileAfterSpaces(line: string, i: nat) returns (n: nat, f: string)
    requires i <= |line| && FileAfter(line, i).Some?
    ensures FileAfter(line, i) == Some(f)
    ensures 5 <= |f| && JpgAt(f, |f| - 4)
    ensures forall k :: 0 <= k < |f| ==> NotSpace(f[k])
    ensures SpacesThenFile(line, i, n, f)
  {
    var rest := line[i..];
    n := RunLength(rest, IsSpace);
    var run := NonSpaceRun(line, i + n);
    assert FileAfter(line, i) == JpgName(run);
    f := JpgName(run).value;
    forall k | 0 <= k < |f| ensures NotSpace(f[k]) && f[k] == line[i + n + k] {
      assert f[k] == run[k];
    }
    assert line[i + n..i + n + |f|] == f;
    forall k | i <= k < i + n ensures IsSpace(line[k]) {
      assert line[k] == rest[k - i];
    }
  }

  // ------------------------------------------------------------------
  // _parse_descriptions
  // ------------------------------------------------------------------

  /** The armed header: folder and file name. */
  datatype Bloque = Bloque(carpeta: string, filename: string)

  /** `line.lower().startswith("description:")`. */
  predicate IsDescriptionLine(line: string) {
    |line| >= 12 && Lower(line[..12]) == "description:"
  }

  /** `line.split(":", 1)[1].strip()` on a description line. */
  function DescriptionContent(line: string): string {
    match SplitFirst(line, ':')
    case Some((_, rest)) => Strip(rest)
    case None => ""
  }

  /** On a description line the first colon is the one of the prefix, so the content is the rest of the line, stripped. */
  lemma DescriptionContentAfterPrefix(line: string)
    requires IsDescriptionLine(line)
    ensures DescriptionContent(line) == Strip(line[12..])
  {
    assert forall k :: 0 <= k < 12 ==> LowerChar(line[k]) == "description:"[k];
    assert line[11] == ':';
    assert forall k :: 0 <= k < 11 ==> line[k] != ':';
    var (a, b) := SplitFirst(line, ':').value;
    assert line[|a|] == ':';
    assert |a| == 11;
    assert b == line[12..];
  }

  /** The message used when a code has no official group name. */
  function NotFound(code: string): string {
    "Grupo no encontrado para '" + code + "'"
  }

  /** The photo a description line emits for the armed header. */
  function DescribedFoto(b: Bloque, line: string, lookup: map<string, string>): Foto {
    var content := DescriptionContent(line);
    var (code, detail) :=
      match SplitFirst(content, '\t')
      case None => (Strip(content), "")
      case Some((c, d)) => (Strip(c), Strip(d));
    Foto(b.filename, if code in lookup then lookup[code] else NotFound(code), detail, b.carpeta)
  }

  /**
   * The content splits at its first tab: the code before it and the detail
   * after it, both stripped, or the whole content and no detail; the group
   * name is the lookup's, or the "not found" message.
   */
  lemma DescribedFotoFields(b: Bloque, line: string, lookup: map<string, string>)
    ensures var f := DescribedFoto(b, line, lookup);
      var content := DescriptionContent(line);
      && f.filename == b.filename && f.carpeta == b.carpeta
      && ('\t' !in content ==> f.specificDetail == "" && f.groupName == (if Strip(content) in lookup then lookup[Strip(content)] else NotFound(Strip(content))))
      && ('\t' in content ==>
            exists c, d :: (c + "\t" + d == content && '\t' !in c && f.specificDetail == Strip(d)
              && f.groupName == (if Strip(c) in lookup then lookup[Strip(c)] else NotFound(Strip(c)))))
  {
  }

  /** One line of the state machine: the new block state and the photo emitted, if any. */
  function Step(bloque: Option<Bloque>, rawLine: string, lookup: map<string, string>): (Option<Bloque>, Option<Foto>) {
    var line := Strip(rawLine);
    match MatchHeader(line)
    case Some((carpeta, filename)) => (Some(Bloque(carpeta, filename)), None)
    case None =>
      if IsDescriptionLine(line) && bloque.Some? then (None, Some(DescribedFoto(bloque.value, line, lookup)))
      else (bloque, None)
  }

  /**
   * A photo is emitted only by a description line that is not a header
   * while a block is armed, and emitting disarms the block; a header arms
   * a block; any other line changes nothing.
   */
  lemma StepSpec(bloque: Option<Bloque>, rawLine: string, lookup: map<string, string>)
    ensures var (b, f) := Step(bloque, rawLine, lookup);
      var line := Strip(rawLine);
      && (f.Some? <==> MatchHeader(line).None? && IsDescriptionLine(line) && bloque.Some?)
      && (f.Some? ==> b.None? && f.value == DescribedFoto(bloque.value, line, lookup))
      && (MatchHeader(line).Some? ==> b == Some(Bloque(MatchHeader(line).value.0, MatchHeader(line).value.1)))
      && (MatchHeader(line).None? && f.None? ==> b == bloque)
  {
  }

  /** The state machine over a sequence of lines: the final block state and the photos in emission order. */
  function Parse(lines: seq<string>, lookup: map<string, string>): (Option<Bloque>, seq<Foto>) {
    if lines == [] then (None, [])
    else
      var (b, fotos) := Parse(lines[..|lines| - 1], lookup);
      var (b', f) := Step(b, lines[|lines| - 1], lookup);
      (b', if f.Some? then fotos + [f.value] else fotos)
  }

  /** `_parse_descriptions`: the loop over the lines with the `bloque` state. */
  method ParseDescriptions(txtDescriptions: string, lookup: map<string, string>) returns (fotos: seq<Foto>)
    ensures fotos == Parse(SplitLines(txtDescriptions), lookup).1
  {
    var lines := SplitLines(txtDescriptions);
    fotos := [];
    var bloque: Option<Bloque> := None;
    for i := 0 to |lines|
      invariant (bloque, fotos) == Parse(lines[..i], lookup)
    {
      ParsePrefixStep(lines, i, lookup);
      StepSpec(bloque, lines[i], lookup);
      var line := Strip(lines[i]);
      var m := MatchHeader(line);
      if m.Some? {
        bloque := Some(Bloque(m.value.0, m.value.1));
      } else if IsDescriptionLine(line) && bloque.Some? {
        fotos := fotos + [DescribedFoto(bloque.value, line, lookup)];
        bloque := None;
      }
    }
    assert lines[..|lines|] == lines;
  }

  /** One more line of the input: the state machine takes one more step. */
  lemma ParsePrefixStep(lines: seq<string>, i: nat, lookup: map<string, string>)
    requires i < |lines|
    ensures var (b, fotos) := Parse(lines[..i], lookup);
      var (b', f) := Step(b, lines[i], lookup);
      Parse(lines[..i + 1], lookup) == (b', if f.Some? then fotos + [f.value] else fotos)
  {
    assert lines[..i + 1][..i] == lines[..i];
  }

  /** The number of description lines that are not headers. */
  function DescriptionCount(lines: seq<string>): nat {
    if lines == [] then 0
    else
      var line := Strip(lines[|lines| - 1]);
      DescriptionCount(lines[..|lines| - 1]) + (if MatchHeader(line).None? && IsDescriptionLine(line) then 1 else 0)
  }

  /**
   * No more photos than description lines, and a description line emits
   * exactly when the line before it left a block armed.
   */
  lemma {:induction false} ParseCount(lines: seq<string>, lookup: map<string, string>)
    ensures |Parse(lines, lookup).1| <= DescriptionCount(lines)
    ensures lines != [] ==>
      var line := Strip(lines[|lines| - 1]);
      var before := Parse(lines[..|lines| - 1], lookup);
      |Parse(lines, lookup).1| == |before.1| + (if MatchHeader(line).None? && IsDescriptionLine(line) && before.0.Some? then 1 else 0)
  {
    if lines != [] {
      ParseCount(lines[..|lines| - 1], lookup);
    }
  }

  /**
   * Once no block is armed (as after an emitting description line), lines
   * without a header emit nothing: a second description line needs a new
   * header.
   */
  lemma {:induction false} NoHeaderNoEmit(lines: seq<string>, more: seq<string>, lookup: map<string, string>)
    requires Parse(lines, lookup).0.None?
    requires forall k :: 0 <= k < |more| ==> MatchHeader(Strip(more[k])).None?
    ensures Parse(lines + more, lookup) == Parse(lines, lookup)
  {
    if more == [] {
      assert lines + more == lines;
    } else {
      var init := more[..|more| - 1];
      var x := more[|more| - 1];
      NoHeaderNoEmit(lines, init, lookup);
      AppendLast(lines, more);
      ParseSnoc(lines + init, x, lookup);
      StepSpec(None, x, lookup);
    }
  }

  lemma AppendLast<T>(a: seq<T>, b: seq<T>)
    requires b != []
    ensures a + b == (a + b[..|b| - 1]) + [b[|b| - 1]]
  {
    assert b == b[..|b| - 1] + [b[|b| - 1]];
  }

  /** An emitting line leaves no block armed. */
  lemma EmitDisarms(lines: seq<string>, line: string, lookup: map<string, string>)
    requires |Parse(lines + [line], lookup).1| > |Parse(lines, lookup).1|
    ensures Parse(lines + [line], lookup).0.None?
  {
    ParseSnoc(lines, line, lookup);
    StepSpec(Parse(lines, lookup).0, line, lookup);
  }

  /** `Parse` takes one more line by one more `Step`. */
  lemma ParseSnoc(lines: seq<string>, line: string, lookup: map<string, string>)
    ensures var (b, fotos) := Parse(lines, lookup);
      var (b', f) := Step(b, line, lookup);
      Parse(lines + [line], lookup) == (b', if f.Some? then fotos + [f.value] else fotos)
  {
    assert (lines + [line])[..|lines|] == lines;
  }

  // ------------------------------------------------------------------
  // procesar_zip
  // ------------------------------------------------------------------

  /** The photos of one group, in input order. */
  function FotosOf(fotos: seq<Foto>, name: string): (r: seq<Foto>)
    ensures forall f :: f in r <==> f in fotos && f.groupName == name
    ensures forall f :: multiset(r)[f] == if f.groupName == name then multiset(fotos)[f] else 0
    ensures |r| <= |fotos|
  {
    if fotos == [] then []
    else
      var p := FotosOf(fotos[..|fotos| - 1], name);
      var f := fotos[|fotos| - 1];
      assert fotos == fotos[..|fotos| - 1] + [f];
      assert forall g :: g in fotos <==> g in fotos[..|fotos| - 1] || g == f;
      if f.groupName == name then p + [f] else p
  }

  function GroupNames(fotos: seq<Foto>): (ns: seq<string>)
    ensures |ns| == |fotos|
    ensures forall k :: 0 <= k < |fotos| ==> ns[k] == fotos[k].groupName
  {
    seq(|fotos|, k requires 0 <= k < |fotos| => fotos[k].groupName)
  }

  /** The `grupos` dict: its keys in insertion order and its entries. */
  datatype Grupos = Grupos(order: seq<string>, byName: map<string, Grupo>)

  /** `order` and `grupos` group `fotos`: one group per distinct name, in order of first appearance. */
  ghost predicate Grouped(fotos: seq<Foto>, order: seq<string>, grupos: map<string, Grupo>) {
    && order == Dedup(GroupNames(fotos))
    && (forall name :: name in grupos <==> name in order)
    && (forall name :: name in grupos ==> grupos[name] == Grupo(name, FotosOf(fotos, name), []))
  }

  /** The grouping loop with `setdefault`: one group per distinct name, in order of first appearance. */
  method GroupByName(fotos: seq<Foto>) returns (g: Grupos)
    ensures g.order == Dedup(GroupNames(fotos))
    ensures forall name :: name in g.byName <==> name in g.order
    ensures forall name :: name in g.byName ==> g.byName[name] == Grupo(name, FotosOf(fotos, name), [])
  {
    var order: seq<string> := [];
    var grupos: map<string, Grupo> := map[];
    for i := 0 to |fotos|
      invariant Grouped(fotos[..i], order, grupos)
    {
      var f := fotos[i];
      GroupedStep(fotos, i, order, grupos);
      var gr: Grupo;
      if f.groupName in grupos {
        gr := grupos[f.groupName];
      } else {
        gr := Grupo(f.groupName, [], []);
        order := order + [f.groupName];
      }
      grupos := grupos[f.groupName := Grupo(gr.descripcion, gr.fotos + [f], gr.recomendaciones)];
    }
    assert fotos[..|fotos|] == fotos;
    g := Grupos(order, grupos);
  }

  /** One iteration of the grouping loop keeps `Grouped`. */
  lemma GroupedStep(fotos: seq<Foto>, i: nat, order: seq<string>, grupos: map<string, Grupo>)
    requires i < |fotos| && Grouped(fotos[..i], order, grupos)
    ensures var f := fotos[i];
      var gr := if f.groupName in grupos then grupos[f.groupName] else Grupo(f.groupName, [], []);
      Grouped(fotos[..i + 1], if f.groupName in grupos then order else order + [f.groupName],
        grupos[f.groupName := Grupo(gr.descripcion, gr.fotos + [f], gr.recomendaciones)])
  {
    var f := fotos[i];
    GroupNamesStep(fotos, i);
    if f.groupName !in grupos {
      FotosOfAbsent(fotos[..i], f.groupName);
    }
    var gr := if f.groupName in grupos then grupos[f.groupName] else Grupo(f.groupName, [], []);
    assert gr == Grupo(f.groupName, FotosOf(fotos[..i], f.groupName), []);
    var grupos' := grupos[f.groupName := Grupo(gr.descripcion, gr.fotos + [f], gr.recomendaciones)];
    var order' := if f.groupName in grupos then order else order + [f.groupName];
    assert f.groupName in grupos <==> f.groupName in order;
    assert order' == Dedup(GroupNames(fotos[..i + 1]));
    forall name ensures name in grupos' <==> name in order' {
      InSnoc(order, f.groupName, name);
    }
    forall name | name in grupos' ensures grupos'[name] == Grupo(name, FotosOf(fotos[..i + 1], name), []) {
      FotosOfStep(fotos, i, name);
      if name != f.groupName {
        assert grupos'[name] == grupos[name];
      }
    }
    GroupedIntro(fotos[..i + 1], order', grupos');
  }

  lemma GroupedIntro(fotos: seq<Foto>, order: seq<string>, grupos: map<string, Grupo>)
    requires order == Dedup(GroupNames(fotos))
    requires forall name :: name in grupos <==> name in order
    requires forall name :: name in grupos ==> grupos[name] == Grupo(name, FotosOf(fotos, name), [])
    ensures Grouped(fotos, order, grupos)
  {
  }

  lemma InSnoc<T>(s: seq<T>, x: T, y: T)
    ensures y in s + [x] <==> y in s || y == x
  {
  }

  /** One more photo: its name joins the order if it is new. */
  lemma GroupNamesStep(fotos: seq<Foto>, i: nat)
    requires i < |fotos|
    ensures var name := fotos[i].groupName;
      var before := Dedup(GroupNames(fotos[..i]));
      Dedup(GroupNames(fotos[..i + 1])) == if name in before then before else before + [name]
  {
    var ns := GroupNames(fotos[..i + 1]);
    assert ns[..i] == GroupNames(fotos[..i]);
  }

  /** One more photo: its group gains it at the end, the others are unchanged. */
  lemma FotosOfStep(fotos: seq<Foto>, i: nat, name: string)
    requires i < |fotos|
    ensures FotosOf(fotos[..i + 1], name) == FotosOf(fotos[..i], name) + (if fotos[i].groupName == name then [fotos[i]] else [])
  {
    assert fotos[..i + 1][..i] == fotos[..i];
  }

  /** A name no photo carries has no photos. */
  lemma FotosOfAbsent(fotos: seq<Foto>, name: string)
    requires name !in GroupNames(fotos)
    ensures FotosOf(fotos, name) == []
  {
    forall k | 0 <= k < |fotos| ensures fotos[k].groupName != name {
      assert GroupNames(fotos)[k] == fotos[k].groupName;
    }
  }

  /** The positions of the photos named `name`, in increasing order. */
  function NamedPositions(fotos: seq<Foto>, name: string): (idx: seq<nat>)
    ensures forall k :: 0 <= k < |idx| ==> idx[k] < |fotos| && fotos[idx[k]].groupName == name
    ensures forall k, m :: 0 <= k < m < |idx| ==> idx[k] < idx[m]
    ensures forall j :: 0 <= j < |fotos| && fotos[j].groupName == name ==> j in idx
  {
    if fotos == [] then []
    else
      var init := fotos[..|fotos| - 1];
      var p := NamedPositions(init, name);
      assert forall k :: 0 <= k < |p| ==> fotos[p[k]] == init[p[k]];
      if fotos[|fotos| - 1].groupName == name then p + [|fotos| - 1] else p
  }

  /** A group's photos are the photos with its name taken at increasing positions: input order is kept. */
  lemma {:induction false} FotosOfOrder(fotos: seq<Foto>, name: string)
    ensures var idx := NamedPositions(fotos, name);
      |FotosOf(fotos, name)| == |idx| && forall k :: 0 <= k < |idx| ==> FotosOf(fotos, name)[k] == fotos[idx[k]]
  {
    if fotos != [] {
      var init, f := fotos[..|fotos| - 1], fotos[|fotos| - 1];
      FotosOfOrder(init, name);
      var r, p := FotosOf(fotos, name), FotosOf(init, name);
      var idx, pi := NamedPositions(fotos, name), NamedPositions(init, name);
      assert |p| == |pi|;
      forall k | 0 <= k < |pi| ensures r[k] == fotos[idx[k]] {
        assert p[k] == init[pi[k]] && init[pi[k]] == fotos[pi[k]];
        if f.groupName == name {
          assert r == p + [f] && idx == pi + [|fotos| - 1];
        } else {
          assert r == p && idx == pi;
        }
      }
      if f.groupName == name {
        assert r == p + [f] && idx == pi + [|fotos| - 1];
      } else {
        assert r == p && idx == pi;
      }
    }
  }

  /** The number of photos in the groups `names`, summed. */
  function GroupSizes(fotos: seq<Foto>, names: seq<string>): nat {
    if names == [] then 0 else |FotosOf(fotos, names[0])| + GroupSizes(fotos, names[1..])
  }

  lemma {:induction false} GroupSizesEmpty(names: seq<string>)
    ensures GroupSizes([], names) == 0
  {
    if names != [] {
      GroupSizesEmpty(names[1..]);
    }
  }

  /** One more photo adds one to the sizes exactly when its group is among `names`. */
  lemma {:induction false} GroupSizesSnoc(fotos: seq<Foto>, names: seq<string>)
    requires fotos != [] && Distinct(names)
    ensures GroupSizes(fotos, names) ==
      GroupSizes(fotos[..|fotos| - 1], names) + (if fotos[|fotos| - 1].groupName in names then 1 else 0)
  {
    if names != [] {
      var rest := names[1..];
      assert Distinct(rest) by {
        forall i, j | 0 <= i < j < |rest| ensures rest[i] != rest[j] {
          assert rest[i] == names[i + 1] && rest[j] == names[j + 1];
        }
      }
      GroupSizesSnoc(fotos, rest);
      var n := fotos[|fotos| - 1].groupName;
      assert n in names <==> n == names[0] || n in rest;
    }
  }

  lemma {:induction false} GroupSizesCover(fotos: seq<Foto>, names: seq<string>)
    requires Distinct(names)
    requires forall k :: 0 <= k < |fotos| ==> fotos[k].groupName in names
    ensures GroupSizes(fotos, names) == |fotos|
  {
    if fotos == [] {
      GroupSizesEmpty(names);
    } else {
      var init := fotos[..|fotos| - 1];
      assert forall k :: 0 <= k < |init| ==> init[k] == fotos[k];
      GroupSizesCover(init, names);
      GroupSizesSnoc(fotos, names);
    }
  }

  /** The groups together hold every photo once: their sizes add up to the number of photos. */
  lemma GroupSizesTotal(fotos: seq<Foto>)
    ensures GroupSizes(fotos, Dedup(GroupNames(fotos))) == |fotos|
  {
    forall k | 0 <= k < |fotos| ensures fotos[k].groupName in Dedup(GroupNames(fotos)) {
      assert GroupNames(fotos)[k] == fotos[k].groupName;
    }
    GroupSizesCover(fotos, Dedup(GroupNames(fotos)));
  }

  /** Every photo is in exactly one group: the one keyed by its group name. */
  lemma GroupingPartition(fotos: seq<Foto>, f: Foto, name: string)
    requires f in fotos
    ensures f in FotosOf(fotos, name) <==> name == f.groupName
    ensures f.groupName in Dedup(GroupNames(fotos))
  {
    var k :| 0 <= k < |fotos| && fotos[k] == f;
    assert GroupNames(fotos)[k] == f.groupName;
  }

  /** A member of the archive, decoded; a missing member is empty text. */
  function Member(archivos: map<string, string>, name: string): string {
    if name in archivos then archivos[name] else ""
  }

  /** What `procesar_zip` returns. */
  function ProcesarZipSpec(archivos: map<string, string>): seq<Foto> {
    Parse(SplitLines(Member(archivos, "descriptions.txt")), CollectPairs(SplitLines(Member(archivos, "grupos.txt")), ParseGroupLine)).1
  }

  /** `procesar_zip`: the lookup, the parse and the grouping. */
  method ProcesarZip(archivos: map<string, string>) returns (g: Grupos)
    ensures var fotos := ProcesarZipSpec(archivos);
      && g.order == Dedup(GroupNames(fotos))
      && (forall name :: name in g.byName <==> name in g.order)
      && (forall name :: name in g.byName ==> g.byName[name] == Grupo(name, FotosOf(fotos, name), []))
  {
    var txtDescriptions := Member(archivos, "descriptions.txt");
    var txtGrupos := Member(archivos, "grupos.txt");
    var lookup := CreateGroupLookup(txtGrupos);
    var fotos := ParseDescriptions(txtDescriptions, lookup);
    g := GroupByName(fotos);
  }

  /** Without `descriptions.txt` there are no photos and no groups. */
  lemma NoDescriptionsNoGroups(archivos: map<string, string>)
    requires "descriptions.txt" !in archivos
    ensures ProcesarZipSpec(archivos) == []
    ensures Dedup(GroupNames(ProcesarZipSpec(archivos))) == []
  {
  }
}
