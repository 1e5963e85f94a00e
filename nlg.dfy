/**
 * The rule-based statement generator: greedy single-pass clustering of
 * `(descripcion, variable)` findings by text similarity, and one Spanish
 * sentence per cluster, "<descripcion> en <A>, <B> y <C>", with its first
 * character capitalised.
 *
 * `SequenceMatcher(None, a, b).ratio()` is the parameter `ratio`.
 */
module Nlg {
  import opened Wrappers
  import opened Text

  /** One finding: its detail text and the location label it was seen at. */
  datatype Entry = Entry(descripcion: string, variable: string)

  /** A cluster: the raw text of its founding entry and its location labels in input order. */
  datatype Grupo = Grupo(descripcion: string, variables: seq<string>)

  /** A string-similarity ratio, `SequenceMatcher(None, a, b).ratio()`. */
  type Ratio = (string, string) -> real

  /** The default clustering threshold of `agrupa_y_redacta`. */
  const DefaultUmbral: real := 0.8

  // ------------------------------------------------------------------
  // _normaliza_descripcion
  // ------------------------------------------------------------------

  /** Lower-cased words joined by single spaces. */
  function NormalizaDescripcion(texto: string): string {
    JoinWith(" ", Words(Lower(texto)))
  }

  predicate IsLowered(s: string) {
    forall k :: 0 <= k < |s| ==> LowerChar(s[k]) == s[k]
  }

  /** Every white-space character is a single ' ' strictly between two non-space characters. */
  predicate WellSpaced(s: string) {
    forall k :: 0 <= k < |s| && IsSpace(s[k]) ==> s[k] == ' ' && 0 < k < |s| - 1 && NotSpace(s[k - 1]) && NotSpace(s[k + 1])
  }

  lemma {:induction false} JoinWellSpaced(ws: seq<string>)
    requires forall k :: 0 <= k < |ws| ==> ws[k] != []
    requires forall k, m :: 0 <= k < |ws| && 0 <= m < |ws[k]| ==> NotSpace(ws[k][m])
    ensures WellSpaced(JoinWith(" ", ws))
    ensures ws != [] ==> JoinWith(" ", ws) != [] && JoinWith(" ", ws)[0] == ws[0][0]
  {
    if |ws| == 1 {
      assert JoinWith(" ", ws) == ws[0];
      forall k | 0 <= k < |ws[0]| ensures NotSpace(ws[0][k]) { }
    } else if |ws| > 1 {
      var w, rest := ws[0], ws[1..];
      forall k | 0 <= k < |rest| ensures rest[k] != [] { assert rest[k] == ws[k + 1]; }
      forall k, m | 0 <= k < |rest| && 0 <= m < |rest[k]| ensures NotSpace(rest[k][m]) { assert rest[k] == ws[k + 1]; }
      JoinWellSpaced(rest);
      var j := JoinWith(" ", rest);
      var r := JoinWith(" ", ws);
      assert r == w + " " + j;
      assert forall k :: 0 <= k < |w| ==> r[k] == ws[0][k];
      forall k | 0 <= k < |r| && IsSpace(r[k])
        ensures r[k] == ' ' && 0 < k < |r| - 1 && NotSpace(r[k - 1]) && NotSpace(r[k + 1])
      {
        if k == |w| {
          assert r[k - 1] == ws[0][|w| - 1];
          assert r[k + 1] == j[0] == rest[0][0];
        } else {
          assert r[k] == j[k - |w| - 1];
          assert r[k - 1] == if k - 1 == |w| then ' ' else j[k - |w| - 2];
        }
      }
    }
  }

  lemma {:induction false} JoinChars(sep: string, ws: seq<string>, c: char)
    requires c in JoinWith(sep, ws)
    ensures c in sep || exists k :: 0 <= k < |ws| && c in ws[k]
  {
    if |ws| > 1 {
      var j := JoinWith(sep, ws[1..]);
      assert JoinWith(sep, ws) == ws[0] + sep + j;
      if c in j {
        JoinChars(sep, ws[1..], c);
        if c !in sep {
          var k :| 0 <= k < |ws[1..]| && c in ws[1..][k];
          assert ws[1..][k] == ws[k + 1];
        }
      }
    }
  }

  /** The words of a lower-cased text are lower-cased and free of white space. */
  lemma WordsOfLowered(texto: string)
    ensures var ws := Words(Lower(texto));
      && (forall k :: 0 <= k < |ws| ==> ws[k] != [])
      && (forall k, m :: 0 <= k < |ws| && 0 <= m < |ws[k]| ==> NotSpace(ws[k][m]) && LowerChar(ws[k][m]) == ws[k][m])
  {
    var l := Lower(texto);
    RunsFromText(l, NotSpace);
  }

  lemma {:induction false} RunsFromText(s: string, inRun: char -> bool)
    ensures forall k, m :: 0 <= k < |Runs(s, inRun)| && 0 <= m < |Runs(s, inRun)[k]| ==> Runs(s, inRun)[k][m] in s
    decreases |s|
  {
    if s != [] {
      if !inRun(s[0]) {
        RunsFromText(s[1..], inRun);
      } else {
        var n := RunLength(s, inRun);
        RunsFromText(s[n..], inRun);
        var rs := Runs(s, inRun);
        assert rs == [s[..n]] + Runs(s[n..], inRun);
        forall k, m | 0 <= k < |rs| && 0 <= m < |rs[k]| ensures rs[k][m] in s {
          if k == 0 {
            assert rs[k][m] == s[m];
          } else {
            assert rs[k] == Runs(s[n..], inRun)[k - 1];
            assert rs[k][m] in s[n..];
          }
        }
      }
    }
  }

  /** `_normaliza_descripcion` yields lower-case words separated by single spaces, with no space at either end. */
  lemma NormalizaWellFormed(texto: string)
    ensures IsLowered(NormalizaDescripcion(texto))
    ensures WellSpaced(NormalizaDescripcion(texto))
  {
    var ws := Words(Lower(texto));
    WordsOfLowered(texto);
    JoinWellSpaced(ws);
    var r := NormalizaDescripcion(texto);
    forall k | 0 <= k < |r| ensures LowerChar(r[k]) == r[k] {
      assert r[k] in r;
      JoinChars(" ", ws, r[k]);
    }
  }

  /** Normalising twice is normalising once. */
  lemma NormalizaIdempotent(texto: string)
    ensures NormalizaDescripcion(NormalizaDescripcion(texto)) == NormalizaDescripcion(texto)
  {
    var ws := Words(Lower(texto));
    var r := NormalizaDescripcion(texto);
    NormalizaWellFormed(texto);
    assert Lower(r) == r;
    WordsOfLowered(texto);
    RunsOfJoin(ws, NotSpace);
  }

  // ------------------------------------------------------------------
  // agrupar_descripciones
  // ------------------------------------------------------------------

  /** The similarity the clustering loop computes between a normalised description and a group. */
  function Similitud(ratio: Ratio, descNorm: string, g: Grupo): real {
    ratio(descNorm, NormalizaDescripcion(g.descripcion))
  }

  /** The earliest-created group whose reference reaches the threshold, if any. */
  function FirstMatch(grupos: seq<Grupo>, descNorm: string, ratio: Ratio, umbral: real): (r: Option<nat>)
    ensures r.Some? ==> r.value < |grupos| && Similitud(ratio, descNorm, grupos[r.value]) >= umbral
    ensures forall j :: 0 <= j < |grupos| && (r.None? || j < r.value) ==> Similitud(ratio, descNorm, grupos[j]) < umbral
  {
    if grupos == [] then None
    else
      match FirstMatch(grupos[..|grupos| - 1], descNorm, ratio, umbral)
      case Some(i) => Some(i)
      case None =>
        if Similitud(ratio, descNorm, grupos[|grupos| - 1]) >= umbral then Some(|grupos| - 1) else None
  }

  /** One step of the clustering loop: the entry joins the first qualifying group or founds a new one. */
  function Assign(grupos: seq<Grupo>, e: Entry, ratio: Ratio, umbral: real): (r: seq<Grupo>)
    ensures |grupos| <= |r| <= |grupos| + 1
  {
    match FirstMatch(grupos, NormalizaDescripcion(e.descripcion), ratio, umbral)
    case Some(i) => grupos[i := Grupo(grupos[i].descripcion, grupos[i].variables + [e.variable])]
    case None => grupos + [Grupo(e.descripcion, [e.variable])]
  }

  /**
   * First fit, with an inclusive threshold: an entry is appended to the
   * earliest-created group whose reference reaches the threshold; when no
   * group does, it founds a new group at the end.
   */
  lemma AssignFirstFit(grupos: seq<Grupo>, e: Entry, ratio: Ratio, umbral: real)
    ensures var d := NormalizaDescripcion(e.descripcion);
      (forall j :: 0 <= j < |grupos| ==> Similitud(ratio, d, grupos[j]) < umbral)
      ==> Assign(grupos, e, ratio, umbral) == grupos + [Grupo(e.descripcion, [e.variable])]
    ensures var d := NormalizaDescripcion(e.descripcion);
      forall i ::
        (0 <= i < |grupos| && Similitud(ratio, d, grupos[i]) >= umbral && (forall j :: 0 <= j < i ==> Similitud(ratio, d, grupos[j]) < umbral))
        ==> Assign(grupos, e, ratio, umbral) == grupos[i := Grupo(grupos[i].descripcion, grupos[i].variables + [e.variable])]
  {
  }

  /** A step never disturbs existing groups: same place, same reference text, labels only appended. */
  lemma AssignExtends(grupos: seq<Grupo>, e: Entry, ratio: Ratio, umbral: real)
    ensures var r := Assign(grupos, e, ratio, umbral);
      forall k :: 0 <= k < |grupos| ==> r[k].descripcion == grupos[k].descripcion && grupos[k].variables <= r[k].variables
  {
  }

  /** The groups `agrupar_descripciones` returns: the clustering step applied to each entry in input order. */
  function Agrupar(entradas: seq<Entry>, ratio: Ratio, umbral: real): (r: seq<Grupo>)
    ensures |r| <= |entradas|
    ensures entradas != [] ==> |r| >= 1
  {
    if entradas == [] then []
    else Assign(Agrupar(entradas[..|entradas| - 1], ratio, umbral), entradas[|entradas| - 1], ratio, umbral)
  }

  lemma {:induction false} FirstMatchIs(grupos: seq<Grupo>, descNorm: string, ratio: Ratio, umbral: real, i: nat)
    requires i < |grupos| && Similitud(ratio, descNorm, grupos[i]) >= umbral
    requires forall j :: 0 <= j < i ==> Similitud(ratio, descNorm, grupos[j]) < umbral
    ensures FirstMatch(grupos, descNorm, ratio, umbral) == Some(i)
  {
    var r := FirstMatch(grupos, descNorm, ratio, umbral);
    if r.None? || r.value > i {
    } else if r.value < i {
    }
  }

  lemma FirstMatchNone(grupos: seq<Grupo>, descNorm: string, ratio: Ratio, umbral: real)
    requires forall j :: 0 <= j < |grupos| ==> Similitud(ratio, descNorm, grupos[j]) < umbral
    ensures FirstMatch(grupos, descNorm, ratio, umbral) == None
  {
  }

  lemma AgruparSnoc(entradas: seq<Entry>, n: nat, ratio: Ratio, umbral: real)
    requires n < |entradas|
    ensures Agrupar(entradas[..n + 1], ratio, umbral) == Assign(Agrupar(entradas[..n], ratio, umbral), entradas[n], ratio, umbral)
  {
    assert entradas[..n + 1][..n] == entradas[..n];
  }

  /**
   * The body of the outer loop of `agrupar_descripciones`: the scan over the
   * existing groups with `asignado` and `break`, then the new group when no
   * group qualified.
   */
  method AsignarEntrada(grupos: seq<Grupo>, e: Entry, ratio: Ratio, umbral: real) returns (r: seq<Grupo>)
    ensures r == Assign(grupos, e, ratio, umbral)
  {
    r := grupos;
    var descNorm := NormalizaDescripcion(e.descripcion);
    var asignado := false;
    var k := 0;
    while k < |r|
      invariant 0 <= k <= |r|
      invariant !asignado && r == grupos
      invariant forall j :: 0 <= j < k ==> Similitud(ratio, descNorm, grupos[j]) < umbral
    {
      var referenciaNorm := NormalizaDescripcion(r[k].descripcion);
      if ratio(descNorm, referenciaNorm) >= umbral {
        r := r[k := Grupo(r[k].descripcion, r[k].variables + [e.variable])];
        asignado := true;
        break;
      }
      assert Similitud(ratio, descNorm, grupos[k]) < umbral;
      k := k + 1;
    }
    if asignado {
      FirstMatchIs(grupos, descNorm, ratio, umbral, k);
    } else {
      FirstMatchNone(grupos, descNorm, ratio, umbral);
      r := r + [Grupo(e.descripcion, [e.variable])];
    }
  }

  /** `agrupar_descripciones`: every entry, in input order, through the clustering step. */
  method AgruparDescripciones(entradas: seq<Entry>, ratio: Ratio, umbral: real) returns (grupos: seq<Grupo>)
    ensures grupos == Agrupar(entradas, ratio, umbral)
  {
    grupos := [];
    for n := 0 to |entradas|
      invariant grupos == Agrupar(entradas[..n], ratio, umbral)
    {
      grupos := AsignarEntrada(grupos, entradas[n], ratio, umbral);
      AgruparSnoc(entradas, n, ratio, umbral);
    }
    assert entradas[..|entradas|] == entradas;
  }

  /** The location labels of the entries, in input order. */
  function Variables(entradas: seq<Entry>): (vs: seq<string>)
    ensures |vs| == |entradas|
    ensures forall k :: 0 <= k < |entradas| ==> vs[k] == entradas[k].variable
  {
    seq(|entradas|, k requires 0 <= k < |entradas| => entradas[k].variable)
  }

  /** All groups' labels, group after group. */
  function Flatten(grupos: seq<Grupo>): seq<string> {
    if grupos == [] then [] else grupos[0].variables + Flatten(grupos[1..])
  }

  lemma {:induction false} FlattenAppend(grupos: seq<Grupo>, g: Grupo)
    ensures Flatten(grupos + [g]) == Flatten(grupos) + g.variables
  {
    if grupos != [] {
      assert (grupos + [g])[1..] == grupos[1..] + [g];
      FlattenAppend(grupos[1..], g);
    }
  }

  lemma {:induction false} FlattenExtend(grupos: seq<Grupo>, i: nat, v: string)
    requires i < |grupos|
    ensures multiset(Flatten(grupos[i := Grupo(grupos[i].descripcion, grupos[i].variables + [v])]))
         == multiset(Flatten(grupos)) + multiset{v}
  {
    var g' := grupos[i := Grupo(grupos[i].descripcion, grupos[i].variables + [v])];
    if i == 0 {
      assert g'[1..] == grupos[1..];
    } else {
      assert g'[1..] == grupos[1..][i - 1 := Grupo(grupos[i].descripcion, grupos[i].variables + [v])];
      FlattenExtend(grupos[1..], i - 1, v);
    }
  }

  lemma VariablesSnoc(entradas: seq<Entry>)
    requires entradas != []
    ensures Variables(entradas) == Variables(entradas[..|entradas| - 1]) + [entradas[|entradas| - 1].variable]
  {
  }

  lemma AssignPartition(gs: seq<Grupo>, e: Entry, ratio: Ratio, umbral: real)
    requires forall k :: 0 <= k < |gs| ==> gs[k].variables != []
    ensures multiset(Flatten(Assign(gs, e, ratio, umbral))) == multiset(Flatten(gs)) + multiset{e.variable}
    ensures forall k :: 0 <= k < |Assign(gs, e, ratio, umbral)| ==> Assign(gs, e, ratio, umbral)[k].variables != []
  {
    match FirstMatch(gs, NormalizaDescripcion(e.descripcion), ratio, umbral)
    case Some(i) =>
      FlattenExtend(gs, i, e.variable);
    case None =>
      FlattenAppend(gs, Grupo(e.descripcion, [e.variable]));
  }

  /**
   * The groups partition the input: their labels, taken together, are
   * exactly the input labels (as a multiset), and no group is empty.
   */
  lemma {:induction false} AgruparPartition(entradas: seq<Entry>, ratio: Ratio, umbral: real)
    ensures multiset(Flatten(Agrupar(entradas, ratio, umbral))) == multiset(Variables(entradas))
    ensures |Flatten(Agrupar(entradas, ratio, umbral))| == |entradas|
    ensures forall k :: 0 <= k < |Agrupar(entradas, ratio, umbral)| ==> Agrupar(entradas, ratio, umbral)[k].variables != []
  {
    if entradas != [] {
      var init := entradas[..|entradas| - 1];
      var e := entradas[|entradas| - 1];
      AgruparPartition(init, ratio, umbral);
      AssignPartition(Agrupar(init, ratio, umbral), e, ratio, umbral);
      VariablesSnoc(entradas);
    }
    var f := Flatten(Agrupar(entradas, ratio, umbral));
    assert |f| == |multiset(f)| == |multiset(Variables(entradas))| == |Variables(entradas)|;
  }

  /**
   * Later entries never disturb earlier groups: the groups built from a
   * prefix of the input keep their place and reference text, and their
   * labels only grow at the end.
   */
  lemma {:induction false} AgruparGrowth(entradas: seq<Entry>, n: nat, ratio: Ratio, umbral: real)
    requires n <= |entradas|
    ensures var p, g := Agrupar(entradas[..n], ratio, umbral), Agrupar(entradas, ratio, umbral);
      |p| <= |g| && forall k :: 0 <= k < |p| ==> g[k].descripcion == p[k].descripcion && p[k].variables <= g[k].variables
    decreases |entradas| - n
  {
    if n == |entradas| {
      assert entradas[..n] == entradas;
    } else {
      var init := entradas[..|entradas| - 1];
      assert init[..n] == entradas[..n];
      AgruparGrowth(init, n, ratio, umbral);
      AssignExtends(Agrupar(init, ratio, umbral), entradas[|entradas| - 1], ratio, umbral);
    }
  }

  /** Some input entry has the group's reference text and its first label. */
  predicate Founded(entradas: seq<Entry>, g: Grupo) {
    g.variables != [] && exists i :: 0 <= i < |entradas| && g.descripcion == entradas[i].descripcion && g.variables[0] == entradas[i].variable
  }

  /** Every group's reference text and first label are those of one input entry: the one that founded it. */
  lemma {:induction false} AgruparFounders(entradas: seq<Entry>, ratio: Ratio, umbral: real)
    ensures forall k :: 0 <= k < |Agrupar(entradas, ratio, umbral)| ==> Founded(entradas, Agrupar(entradas, ratio, umbral)[k])
  {
    if entradas != [] {
      var init := entradas[..|entradas| - 1];
      var e := entradas[|entradas| - 1];
      var p := Agrupar(init, ratio, umbral);
      var gs := Agrupar(entradas, ratio, umbral);
      AgruparFounders(init, ratio, umbral);
      AssignExtends(p, e, ratio, umbral);
      forall k | 0 <= k < |gs| ensures Founded(entradas, gs[k])
      {
        if k < |p| {
          assert Founded(init, p[k]);
          var i :| 0 <= i < |init| && p[k].descripcion == init[i].descripcion && p[k].variables[0] == init[i].variable;
          assert init[i] == entradas[i];
          assert p[k].variables <= gs[k].variables;
          assert gs[k].variables[0] == p[k].variables[0];
        } else {
          assert gs[k] == Grupo(e.descripcion, [e.variable]);
          assert entradas[|entradas| - 1] == e;
        }
      }
    }
  }

  /** The threshold is inclusive: a second entry joins the first one's group exactly when its similarity reaches it. */
  lemma AgruparTwo(a: Entry, b: Entry, ratio: Ratio, umbral: real)
    ensures |Agrupar([a, b], ratio, umbral)| == 1
        <==> ratio(NormalizaDescripcion(b.descripcion), NormalizaDescripcion(a.descripcion)) >= umbral
  {
    assert [a, b][..1] == [a];
    assert [a][..0] == [];
  }

  // ------------------------------------------------------------------
  // _formatear_variables
  // ------------------------------------------------------------------

  /** The Spanish join of already distinct labels: "A", "A y B", "A, B y C". */
  function JoinY(unicas: seq<string>): string {
    if unicas == [] then ""
    else if |unicas| == 1 then unicas[0]
    else if |unicas| == 2 then JoinWith(" y ", unicas)
    else JoinWith(", ", unicas[..|unicas| - 1]) + " y " + unicas[|unicas| - 1]
  }

  /** What `_formatear_variables` returns. */
  function Formatear(variables: seq<string>): string {
    if variables == [] then "" else JoinY(Dedup(variables))
  }

  /** `_formatear_variables`: the de-duplicating loop with its `seen` set, then the join. */
  method FormatearVariables(variables: seq<string>) returns (r: string)
    ensures r == Formatear(variables)
  {
    if |variables| == 0 {
      return "";
    }
    var unicas: seq<string> := [];
    var seen: set<string> := {};
    for i := 0 to |variables|
      invariant unicas == Dedup(variables[..i])
      invariant forall x :: x in seen <==> x in variables[..i]
    {
      var v := variables[i];
      assert variables[..i + 1][..i] == variables[..i];
      if v !in seen {
        unicas := unicas + [v];
        seen := seen + {v};
      }
    }
    assert variables[..|variables|] == variables;
    if |unicas| == 1 {
      return unicas[0];
    }
    if |unicas| == 2 {
      return JoinWith(" y ", unicas);
    }
    return JoinWith(", ", unicas[..|unicas| - 1]) + " y " + unicas[|unicas| - 1];
  }

  lemma {:induction false} DedupOfDistinct(s: seq<string>)
    requires Distinct(s)
    ensures Dedup(s) == s
  {
    if s != [] {
      var init := s[..|s| - 1];
      DedupOfDistinct(init);
      assert s[|s| - 1] !in init;
      assert init + [s[|s| - 1]] == s;
    }
  }

  /**
   * The join laws on distinct labels: one label is itself; two or more are
   * the comma-joined list with the last one preceded by " y ".
   */
  lemma FormatearJoinLaws(unicas: seq<string>)
    requires unicas != [] && Distinct(unicas)
    ensures |unicas| == 1 ==> Formatear(unicas) == unicas[0]
    ensures |unicas| >= 2 ==> Formatear(unicas) == JoinWith(", ", unicas[..|unicas| - 1]) + " y " + unicas[|unicas| - 1]
  {
    DedupOfDistinct(unicas);
    if |unicas| == 2 {
      assert unicas[..1] == [unicas[0]];
      assert JoinWith(" y ", unicas) == unicas[0] + " y " + JoinWith(" y ", unicas[1..]);
    }
  }

  /** Repeated labels do not change the text: `["A", "B", "A"]` formats as `["A", "B"]`. */
  lemma FormatearIgnoresRepeats(variables: seq<string>, repeats: seq<string>)
    requires forall x :: x in repeats ==> x in variables
    ensures Formatear(variables + repeats) == Formatear(variables)
  {
    DedupAbsorbs(variables, repeats);
  }

  // ------------------------------------------------------------------
  // redactar_oracion, agrupa_y_redacta
  // ------------------------------------------------------------------

  /**
   * `redactar_oracion`: the fixed template "{descripcion} en {variables}"
   * filled in, with only its first character upper-cased.
   */
  function Redactar(g: Grupo): (r: string)
    ensures r != []
    ensures |r| == |g.descripcion| + 4 + |Formatear(g.variables)|
    ensures r[|g.descripcion|..] == " en " + Formatear(g.variables)
    ensures g.descripcion != [] ==> r[0] == UpperChar(g.descripcion[0]) && r[1..|g.descripcion|] == g.descripcion[1..]
  {
    var oracion := g.descripcion + " en " + Formatear(g.variables);
    if oracion != [] then [UpperChar(oracion[0])] + oracion[1..] else []
  }

  /** `agrupa_y_redacta`: one sentence per group, in group order. */
  function AgrupaYRedacta(entradas: seq<Entry>, ratio: Ratio, umbral: real): (r: seq<string>)
    ensures |r| == |Agrupar(entradas, ratio, umbral)| <= |entradas|
    ensures r == [] <==> entradas == []
    ensures forall k :: 0 <= k < |r| ==> r[k] == Redactar(Agrupar(entradas, ratio, umbral)[k])
  {
    var grupos := Agrupar(entradas, ratio, umbral);
    seq(|grupos|, k requires 0 <= k < |grupos| => Redactar(grupos[k]))
  }
}
