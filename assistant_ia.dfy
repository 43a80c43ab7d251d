/**
 * The local logic of `server/assistant_ia.py`: the parser of the structured
 * reply of the text-generation model, and the two fallbacks used when the
 * model is not available. The calls to the model itself are not modelled.
 *
 * `re.search(r'MARQUEUR:\s*(.+)', texte, re.IGNORECASE)` is written out: the
 * search tries each start position from the left; after the marker, `\s*`
 * first takes the whole run of whitespace and gives characters back until
 * `.` can match (any character but a line feed, or any character at all
 * with `re.DOTALL`); the greedy `(.+)` then runs to the end of the line, or
 * to the end of the text with `re.DOTALL`.
 */
module AssistantIA {
  import opened Wrappers
  import opened Texte

  /** The record built from a parsed reply (its four keys). */
  datatype ReponseIA = ReponseIA(diagnostic: string, gravite: string, coutEstimatif: string, explicationIa: string)

  /** ASCII lower case. */
  function Minuscule(c: char): char {
    if 'A' <= c <= 'Z' then (c as int + 32) as char else c
  }

  /** `s` in ASCII lower case. */
  function Minuscules(s: string): (r: string)
    ensures |r| == |s|
  {
    if s == [] then [] else [Minuscule(s[0])] + Minuscules(s[1..])
  }

  /** `m` occurs at `p` in `t`, ignoring ASCII case. */
  predicate Marqueur(t: string, m: string, p: nat) {
    p + |m| <= |t| && Minuscules(t[p..p + |m|]) == Minuscules(m)
  }

  /** The length of the run of whitespace that starts at `q`. */
  function Espaces(t: string, q: nat): (w: nat)
    requires q <= |t|
    ensures q + w <= |t|
    ensures forall i :: q <= i < q + w ==> IsSpace(t[i])
    ensures q + w == |t| || !IsSpace(t[q + w])
    decreases |t| - q
  {
    if q < |t| && IsSpace(t[q]) then 1 + Espaces(t, q + 1) else 0
  }

  /** `.` matches at index `q + j`. */
  predicate Point(t: string, q: nat, j: nat, dotall: bool) {
    q + j < |t| && (dotall || t[q + j] != '\n')
  }

  /** The largest `j <= k` at which `.` matches `q + j`: how much of the whitespace `\s*` keeps. */
  function Depart(t: string, q: nat, k: nat, dotall: bool): (r: Option<nat>)
    ensures r.Some? ==> r.value <= k && Point(t, q, r.value, dotall)
    ensures r.Some? ==> forall j: nat :: r.value < j <= k ==> !Point(t, q, j, dotall)
    ensures r.None? ==> forall j: nat :: j <= k ==> !Point(t, q, j, dotall)
  {
    if Point(t, q, k, dotall) then Some(k)
    else if k == 0 then None
    else Depart(t, q, k - 1, dotall)
  }

  /** The end of the line that holds index `i`: the next line feed, or the end of the text. */
  function FinDeLigne(t: string, i: nat): (e: nat)
    requires i <= |t|
    ensures i <= e <= |t|
    ensures forall j :: i <= j < e ==> t[j] != '\n'
    ensures e == |t| || t[e] == '\n'
    decreases |t| - i
  {
    if i == |t| || t[i] == '\n' then i else FinDeLigne(t, i + 1)
  }

  /** `\s*(.+)` tried at index `q`: group 1 when it matches. */
  function Capture(t: string, q: nat, dotall: bool): (r: Option<string>)
    requires q <= |t|
    ensures r.Some? ==> |r.value| >= 1
    ensures r.Some? && !dotall ==> forall i :: 0 <= i < |r.value| ==> r.value[i] != '\n'
    ensures r.Some? && dotall ==> |r.value| <= |t| - q && r.value == t[|t| - |r.value|..]
    ensures r.None? <==> Depart(t, q, Espaces(t, q), dotall).None?
  {
    match Depart(t, q, Espaces(t, q), dotall)
    case None => None
    case Some(k) =>
      if dotall then Some(t[q + k..])
      else
        var e := FinDeLigne(t, q + k);
        Some(t[q + k..e])
  }

  /**
   * What `\s*(.+)` captures at `q`, said without the search: group 1 is `g`,
   * found at `s`. The start lies in the whitespace run after `q`, and `\s*`
   * gives back no more of it than `.` needs: no later point of the run can
   * start the group. The group is not empty and, without DOTALL, holds no
   * line feed. `(.+)` is greedy, so it stops only at the end of the text or,
   * without DOTALL, at a line feed.
   */
  predicate GroupeA(t: string, q: nat, s: nat, g: string, dotall: bool)
    requires q <= |t|
  {
    && q <= s <= q + Espaces(t, q)
    && g != [] && s + |g| <= |t| && t[s..s + |g|] == g
    && (forall j: nat :: s - q < j <= Espaces(t, q) ==> !Point(t, q, j, dotall))
    && (!dotall ==> '\n' !in g)
    && (s + |g| == |t| || (!dotall && t[s + |g|] == '\n'))
  }

  /** At most one group meets that description: it fixes the captured text. */
  lemma GroupeUnique(t: string, q: nat, s1: nat, g1: string, s2: nat, g2: string, dotall: bool)
    requires q <= |t|
    requires GroupeA(t, q, s1, g1, dotall) && GroupeA(t, q, s2, g2, dotall)
    ensures s1 == s2 && g1 == g2
  {
    assert t[s1] == g1[0] && t[s2] == g2[0];
    assert Point(t, q, s1 - q, dotall) && Point(t, q, s2 - q, dotall);
  }

  /** `Capture` gives exactly the group described by `GroupeA`, and nothing when no group exists. */
  lemma CaptureJusquAuBout(t: string, q: nat, dotall: bool)
    requires q <= |t|
    ensures Capture(t, q, dotall).Some? ==>
      exists s: nat :: GroupeA(t, q, s, Capture(t, q, dotall).value, dotall)
    ensures Capture(t, q, dotall).None? ==> forall s: nat, g :: !GroupeA(t, q, s, g, dotall)
  {
    match Depart(t, q, Espaces(t, q), dotall)
    case None =>
      forall s: nat, g | GroupeA(t, q, s, g, dotall) ensures false {
        assert t[s] == g[0];
        assert Point(t, q, s - q, dotall);
      }
    case Some(k) =>
      var g := Capture(t, q, dotall).value;
      if dotall {
        assert t[q + k..|t|] == t[q + k..];
      } else {
        assert g == t[q + k..FinDeLigne(t, q + k)];
      }
      assert t[q + k..q + k + |g|] == g;
      assert GroupeA(t, q, q + k, g, dotall);
  }

  /** The pattern matches at `p`. */
  predicate Reussit(t: string, m: string, p: nat, dotall: bool) {
    Marqueur(t, m, p) && Depart(t, p + |m|, Espaces(t, p + |m|), dotall).Some?
  }

  /** `re.search` from position `p` on: the leftmost position where the pattern matches. */
  function Chercher(t: string, m: string, p: nat, dotall: bool): (r: Option<nat>)
    requires p <= |t|
    ensures r.Some? ==> p <= r.value && Reussit(t, m, r.value, dotall)
    ensures r.Some? ==> forall i :: p <= i < r.value ==> !Reussit(t, m, i, dotall)
    ensures r.None? ==> forall i :: p <= i <= |t| ==> !Reussit(t, m, i, dotall)
    decreases |t| - p
  {
    if Reussit(t, m, p, dotall) then Some(p)
    else if p == |t| then None
    else Chercher(t, m, p + 1, dotall)
  }

  /** `match.group(1).strip()` of `re.search` from the start, or nothing. */
  function Champ(t: string, m: string, dotall: bool): (r: Option<string>)
    ensures r.Some? <==> Chercher(t, m, 0, dotall).Some?
    ensures r.Some? ==> IsTrimmed(r.value)
    ensures r.Some? && !dotall ==> '\n' !in r.value
  {
    match Chercher(t, m, 0, dotall)
    case None => None
    case Some(p) =>
      var g := Capture(t, p + |m|, dotall).value;
      assert !dotall ==> '\n' !in Strip(g) by {
        if !dotall {
          assert '\n' !in g;
          StripSansCaractere(g, '\n');
        }
      }
      Some(Strip(g))
  }

  /** The field is the stripped group of the leftmost match of the marker. */
  lemma ChampTexte(t: string, m: string, dotall: bool)
    requires Champ(t, m, dotall).Some?
    ensures var q := Chercher(t, m, 0, dotall).value + |m|;
      q <= |t| && exists s: nat, g :: GroupeA(t, q, s, g, dotall) && Champ(t, m, dotall).value == Strip(g)
  {
    var q := Chercher(t, m, 0, dotall).value + |m|;
    CaptureJusquAuBout(t, q, dotall);
    var g := Capture(t, q, dotall).value;
    var s: nat :| GroupeA(t, q, s, g, dotall);
    assert Champ(t, m, dotall).value == Strip(g);
  }

  /**
   * `parser_reponse_ia`: the four fields when all four markers are found, each
   * searched on its own from the start of the text; otherwise nothing.
   */
  function ParserReponseIA(t: string): (r: Option<ReponseIA>)
    ensures r.Some? <==> Chercher(t, "DIAGNOSTIC:", 0, false).Some? && Chercher(t, "GRAVITE:", 0, false).Some?
                         && Chercher(t, "COUT:", 0, false).Some? && Chercher(t, "EXPLICATION:", 0, true).Some?
    ensures r.Some? ==> IsTrimmed(r.value.diagnostic) && IsTrimmed(r.value.gravite)
                        && IsTrimmed(r.value.coutEstimatif) && IsTrimmed(r.value.explicationIa)
    ensures r.Some? ==> Some(r.value.diagnostic) == Champ(t, "DIAGNOSTIC:", false)
                        && Some(r.value.gravite) == Champ(t, "GRAVITE:", false)
                        && Some(r.value.coutEstimatif) == Champ(t, "COUT:", false)
                        && Some(r.value.explicationIa) == Champ(t, "EXPLICATION:", true)
  {
    match (Champ(t, "DIAGNOSTIC:", false), Champ(t, "GRAVITE:", false),
           Champ(t, "COUT:", false), Champ(t, "EXPLICATION:", true))
    case (Some(d), Some(g), Some(c), Some(e)) => Some(ReponseIA(d, g, c, e))
    case _ => None
  }

  /** A parsed reply contains each of the four markers, in any case. */
  lemma ParserMarqueurs(t: string)
    requires ParserReponseIA(t).Some?
    ensures exists p: nat :: Marqueur(t, "DIAGNOSTIC:", p)
    ensures exists p: nat :: Marqueur(t, "GRAVITE:", p)
    ensures exists p: nat :: Marqueur(t, "COUT:", p)
    ensures exists p: nat :: Marqueur(t, "EXPLICATION:", p)
  {
    var d := Chercher(t, "DIAGNOSTIC:", 0, false).value;
    var g := Chercher(t, "GRAVITE:", 0, false).value;
    var c := Chercher(t, "COUT:", 0, false).value;
    var e := Chercher(t, "EXPLICATION:", 0, true).value;
    assert Marqueur(t, "DIAGNOSTIC:", d) && Marqueur(t, "GRAVITE:", g);
    assert Marqueur(t, "COUT:", c) && Marqueur(t, "EXPLICATION:", e);
  }

  /** A marker absent from the text, in any case, is never found, so the reply is rejected. */
  lemma Introuvable(t: string, m: string, dotall: bool)
    requires forall p: nat :: !Marqueur(t, m, p)
    ensures Chercher(t, m, 0, dotall).None?
  {
  }

  // ---------------------------------------------------------------------------
  // Fallbacks
  // ---------------------------------------------------------------------------

  /** Text around a joined list contains the list and every item of it. */
  lemma Encadre(avant: string, apres: string, items: seq<string>)
    ensures Contains(avant + Join(", ", items) + apres, Join(", ", items))
    ensures forall k :: 0 <= k < |items| ==> Contains(avant + Join(", ", items) + apres, items[k])
  {
    var liste := Join(", ", items);
    ContainsMiddle(avant, liste, apres);
    forall k | 0 <= k < |items| ensures Contains(avant + liste + apres, items[k]) {
      JoinContains(", ", items, k);
      ContainsWithin(avant, liste, apres, items[k]);
    }
  }

  /** The text of the default explanation, before and after the joined symptoms. */
  const DEFAUT_AVANT: string := "Les symptômes observés ("
  const DEFAUT_APRES: string := ") ne correspondent pas aux pannes courantes de notre base de données. Une inspection approfondie par un mécanicien est recommandée pour identifier précisément le problème. Il pourrait s'agir d'une combinaison de plusieurs défaillances ou d'un problème moins fréquent."

  /** `generer_diagnostic_par_defaut`. */
  function GenererDiagnosticParDefaut(symptomes: seq<string>): (r: ReponseIA)
    ensures r.diagnostic == "Diagnostic nécessitant inspection"
    ensures r.gravite == "Moyen" && r.coutEstimatif == "200Ar - 800Ar"
    ensures Contains(r.explicationIa, Join(", ", symptomes))
    ensures forall k :: 0 <= k < |symptomes| ==> Contains(r.explicationIa, symptomes[k])
  {
    Encadre(DEFAUT_AVANT, DEFAUT_APRES, symptomes);
    ReponseIA("Diagnostic nécessitant inspection", "Moyen", "200Ar - 800Ar",
              DEFAUT_AVANT + Join(", ", symptomes) + DEFAUT_APRES)
  }

  /** The canned explanations of `generer_explication_simulee`, by diagnostic name. */
  const EXPLICATIONS: map<string, string> := map[
    "Problème d'injection" := "Un problème d'injection se manifeste par une combustion incomplète du carburant. Cela entraîne une surconsommation et des émissions de fumée noire. Une révision du système d'injection est nécessaire.",
    "Radiateur défectueux" := "Un radiateur défectueux ne peut plus refroidir correctement le moteur. Les fuites de liquide de refroidissement aggravent le problème. Il faut remplacer le radiateur rapidement pour éviter une surchauffe moteur.",
    "Panne batterie" := "Une batterie faible ou défectueuse ne fournit plus assez d'énergie pour démarrer le moteur. C'est un problème courant et généralement facile à résoudre. Un remplacement de batterie suffit souvent."
  ]

  const SIMULEE_DEBUT: string := "Le diagnostic '"
  const SIMULEE_MILIEU: string := "' nécessite une inspection approfondie. Les symptômes observés ("
  const SIMULEE_FIN: string := ") indiquent un problème qui doit être examiné par un professionnel."

  /** `generer_explication_simulee`: the canned text for a known name, else a template naming the diagnostic and the symptoms. */
  function GenererExplicationSimulee(diagnostic: string, symptomes: seq<string>): (r: string)
    ensures diagnostic in EXPLICATIONS ==> r == EXPLICATIONS[diagnostic]
    ensures diagnostic !in EXPLICATIONS ==> Contains(r, diagnostic) && Contains(r, Join(", ", symptomes))
  {
    if diagnostic in EXPLICATIONS then EXPLICATIONS[diagnostic]
    else
      var liste := Join(", ", symptomes);
      DeuxMilieux(SIMULEE_DEBUT, diagnostic, SIMULEE_MILIEU, liste, SIMULEE_FIN);
      SIMULEE_DEBUT + diagnostic + SIMULEE_MILIEU + liste + SIMULEE_FIN
  }

  /** Both inserted parts of a two-hole template appear in the filled-in text. */
  lemma DeuxMilieux(a: string, x: string, b: string, y: string, c: string)
    ensures Contains(a + x + b + y + c, x) && Contains(a + x + b + y + c, y)
  {
    ContainsMiddle(a, x, b + y + c);
    assert a + x + (b + y + c) == a + x + b + y + c;
    ContainsMiddle(a + x + b, y, c);
  }

  /** The table covers exactly the three diagnostics of the original brief. */
  lemma TroisExplications()
    ensures EXPLICATIONS.Keys == {"Problème d'injection", "Radiateur défectueux", "Panne batterie"}
  {
  }
}
