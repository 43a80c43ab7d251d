/**
 * The diagnostic engine (`MoteurDiagnostic`): the catalog of symptoms and
 * rules, the symptom search on free text and the scored diagnosis.
 */
module Moteur {
  import opened Wrappers
  import opened Json
  import opened Texte
  import opened Ranking
  import SymptomeModel
  import DiagnosticModel
  import opened Vectorisation
  import Config

  type Symptome = SymptomeModel.Symptome
  type Diagnostic = DiagnosticModel.Diagnostic

  const AUCUN_SYMPTOME_FOURNI: string := "Aucun symptôme fourni"
  const AUCUN_SYMPTOME_VALIDE: string := "Aucun symptôme valide"

  /** The dict `diagnostiquer` returns: a failure, or a diagnosis (possibly the uncertain one). */
  datatype Resultat =
    | Echec(erreur: string)
    | Succes(diagnostic: string, description: string, gravite: string, coutEstimatif: string,
             conseils: Option<string>, confiance: string, score: real, symptomesUtilises: seq<string>)

  // ---------------------------------------------------------------------------
  // Loading (`_charger_donnees`)
  // ---------------------------------------------------------------------------

  /** `[from_dict(d) for d in data]`, stopping at the first record that raises. */
  function LireTous<T>(data: seq<Dict>, lire: Dict -> Result<T, FieldError>): (r: Result<seq<T>, FieldError>)
    ensures r.Ok? ==> |r.value| == |data|
    ensures r.Ok? ==> forall i :: 0 <= i < |data| ==> lire(data[i]) == Ok(r.value[i])
    ensures r.Ok? <==> forall i :: 0 <= i < |data| ==> lire(data[i]).Ok?
  {
    if data == [] then Ok([])
    else
      match LireTous(data[..|data| - 1], lire)
      case Err(e) => Err(e)
      case Ok(l) =>
        match lire(data[|data| - 1])
        case Err(e) => Err(e)
        case Ok(x) =>
          assert forall i :: 0 <= i < |data| - 1 ==> data[..|data| - 1][i] == data[i];
          Ok(l + [x])
  }

  /** Once a record fails, the whole load fails with that record's error. */
  lemma {:induction false} LireTousErreur<T>(data: seq<Dict>, k: nat, lire: Dict -> Result<T, FieldError>)
    requires k <= |data| && LireTous(data[..k], lire).Err?
    ensures LireTous(data, lire) == LireTous(data[..k], lire)
  {
    if k < |data| {
      assert data[..|data| - 1][..k] == data[..k];
      LireTousErreur(data[..|data| - 1], k, lire);
    } else {
      assert data[..k] == data;
    }
  }

  lemma LireTousSnoc<T>(data: seq<Dict>, i: nat, lire: Dict -> Result<T, FieldError>)
    requires i < |data| && LireTous(data[..i], lire).Ok?
    ensures lire(data[i]).Err? ==> LireTous(data[..i + 1], lire) == Err(lire(data[i]).error)
    ensures lire(data[i]).Ok? ==>
      LireTous(data[..i + 1], lire) == Ok(LireTous(data[..i], lire).value + [lire(data[i]).value])
  {
    assert data[..i + 1][..i] == data[..i];
  }

  /** The outcome of `_charger_donnees` on parsed records: symptoms are read before rules. */
  function Chargement(symptomesData: seq<Dict>, reglesData: seq<Dict>): Result<(), FieldError> {
    match LireTous(symptomesData, SymptomeModel.FromDict)
    case Err(e) => Err(e)
    case Ok(_) =>
      match LireTous(reglesData, DiagnosticModel.FromDict)
      case Err(e) => Err(e)
      case Ok(_) => Ok(())
  }

  /** `self.symptomes[s.id] = s` for each symptom in turn: a later duplicate id replaces the earlier one. */
  function Cataloguer(m: map<string, Symptome>, symptomes: seq<Symptome>): map<string, Symptome> {
    if symptomes == [] then m
    else
      var last := symptomes[|symptomes| - 1];
      Cataloguer(m, symptomes[..|symptomes| - 1])[last.id := last]
  }

  /** The values of the symptom dict in its key order. */
  function Valeurs(ordre: seq<string>, symptomes: map<string, Symptome>): (r: seq<Symptome>)
    requires forall k :: 0 <= k < |ordre| ==> ordre[k] in symptomes
    ensures |r| == |ordre| && forall k :: 0 <= k < |ordre| ==> r[k] == symptomes[ordre[k]]
  {
    seq(|ordre|, k requires 0 <= k < |ordre| => symptomes[ordre[k]])
  }

  /** A catalog keeps each symptom under its own id. */
  predicate IndexeParId(symptomes: map<string, Symptome>) {
    forall k :: k in symptomes ==> symptomes[k].id == k
  }

  lemma {:induction false} CataloguerParId(m: map<string, Symptome>, symptomes: seq<Symptome>)
    requires IndexeParId(m)
    ensures IndexeParId(Cataloguer(m, symptomes))
    ensures Cataloguer(m, symptomes).Keys == m.Keys + Ids(symptomes)
  {
    if symptomes != [] {
      CataloguerParId(m, symptomes[..|symptomes| - 1]);
      IdsSnoc(symptomes);
    }
  }

  /** A symptom id keeps the record of its last listing; ids not listed keep their old record. */
  lemma {:induction false} CataloguerDernier(m: map<string, Symptome>, symptomes: seq<Symptome>, i: nat)
    requires i < |symptomes|
    requires forall j :: i < j < |symptomes| ==> symptomes[j].id != symptomes[i].id
    ensures symptomes[i].id in Cataloguer(m, symptomes)
    ensures Cataloguer(m, symptomes)[symptomes[i].id] == symptomes[i]
  {
    var init := symptomes[..|symptomes| - 1];
    if i < |init| {
      assert init[i] == symptomes[i];
      CataloguerDernier(m, init, i);
    }
  }

  lemma {:induction false} CataloguerAutres(m: map<string, Symptome>, symptomes: seq<Symptome>, id: string)
    requires id in m && forall j :: 0 <= j < |symptomes| ==> symptomes[j].id != id
    ensures id in Cataloguer(m, symptomes) && Cataloguer(m, symptomes)[id] == m[id]
  {
    if symptomes != [] {
      CataloguerAutres(m, symptomes[..|symptomes| - 1], id);
    }
  }

  // ---------------------------------------------------------------------------
  // Diagnosis (`diagnostiquer`, `_diagnostic_incertain`)
  // ---------------------------------------------------------------------------

  /** `[sid for sid in ids if sid in self.symptomes]`. */
  function Valides(ids: seq<string>, symptomes: map<string, Symptome>): (r: seq<string>)
    ensures |r| <= |ids|
    ensures forall i :: 0 <= i < |r| ==> r[i] in symptomes
    ensures r == [] <==> forall i :: 0 <= i < |ids| ==> ids[i] !in symptomes
    ensures AsSet(r) == AsSet(ids) * symptomes.Keys
  {
    if ids == [] then []
    else
      var init := ids[..|ids| - 1];
      var r := Valides(init, symptomes);
      var x := ids[|ids| - 1];
      AsSetSnoc(init, x);
      AsSetSnoc(r, x);
      assert forall i :: 0 <= i < |init| ==> init[i] == ids[i];
      if x in symptomes then r + [x] else r
  }

  /**
   * The filter works id by id: with the contract above, which fixes the
   * result on one id, this says `Valides` keeps the catalog ids in input
   * order, repetitions included.
   */
  lemma {:induction false} ValidesConcat(a: seq<string>, b: seq<string>, symptomes: map<string, Symptome>)
    ensures Valides(a + b, symptomes) == Valides(a, symptomes) + Valides(b, symptomes)
  {
    if b == [] {
      assert a + b == a;
    } else {
      var init := b[..|b| - 1];
      ValidesConcat(a, init, symptomes);
      assert (a + b)[..|a + b| - 1] == a + init;
      assert (a + b)[|a + b| - 1] == b[|b| - 1];
    }
  }

  /** `[self.symptomes[sid].nom for sid in ids]`. */
  function Noms(ids: seq<string>, symptomes: map<string, Symptome>): (r: seq<string>)
    requires forall i :: 0 <= i < |ids| ==> ids[i] in symptomes
    ensures |r| == |ids| && forall i :: 0 <= i < |ids| ==> r[i] == symptomes[ids[i]].nom
  {
    seq(|ids|, i requires 0 <= i < |ids| => symptomes[ids[i]].nom)
  }

  /** `{sid: self.symptomes[sid].poids for sid in self.symptomes}`. */
  function PoidsCatalogue(symptomes: map<string, Symptome>): (p: map<string, real>)
    ensures p.Keys == symptomes.Keys
    ensures forall k :: k in p ==> p[k] == symptomes[k].poids
  {
    map k | k in symptomes :: symptomes[k].poids
  }

  /** The score of one rule against the valid ids. */
  function ScoreDe(d: Diagnostic, valides: seq<string>, poids: map<string, real>): real {
    ScoreRegle(valides, d.symptomesRequis, d.symptomesOptionnels, poids)
  }

  /** `calculer_score_regle` with the valid ids and the weights fixed, as a function of the rule. */
  function Notation(valides: seq<string>, poids: map<string, real>): Diagnostic -> real {
    d => ScoreDe(d, valides, poids)
  }

  /**
   * `resultats` before sorting: each rule scoring above 0 under `score`, with
   * its score, in catalog order. `diagnostiquer` scores with `Notation`.
   */
  function Candidats(diagnostics: seq<Diagnostic>, score: Diagnostic -> real)
    : (c: seq<(Diagnostic, real)>)
    ensures |c| <= |diagnostics|
    ensures forall i :: 0 <= i < |c| ==> c[i].1 == score(c[i].0) && c[i].1 > 0.0
    ensures c == [] <==> forall j :: 0 <= j < |diagnostics| ==> score(diagnostics[j]) <= 0.0
  {
    if diagnostics == [] then []
    else
      var init := diagnostics[..|diagnostics| - 1];
      var d := diagnostics[|diagnostics| - 1];
      assert forall j :: 0 <= j < |init| ==> init[j] == diagnostics[j];
      var note := score(d);
      Candidats(init, score) + (if note > 0.0 then [(d, note)] else [])
  }

  /** The positions in `diagnostics` of the rules that score above 0, in increasing order. */
  ghost function Positions(diagnostics: seq<Diagnostic>, score: Diagnostic -> real)
    : (idx: seq<nat>)
    ensures forall i :: 0 <= i < |idx| ==> idx[i] < |diagnostics|
    ensures forall i, i' :: 0 <= i < i' < |idx| ==> idx[i] < idx[i']
  {
    if diagnostics == [] then []
    else
      var n := |diagnostics| - 1;
      Positions(diagnostics[..n], score) + (if score(diagnostics[n]) > 0.0 then [n] else [])
  }

  /** A position is listed exactly when its rule scores above 0. */
  lemma {:induction false} PositionsCompletes(diagnostics: seq<Diagnostic>, score: Diagnostic -> real)
    ensures forall j :: 0 <= j < |diagnostics| ==>
              (j in Positions(diagnostics, score) <==> score(diagnostics[j]) > 0.0)
  {
    if diagnostics != [] {
      var n := |diagnostics| - 1;
      var init := diagnostics[..n];
      PositionsCompletes(init, score);
      assert forall j :: 0 <= j < n ==> init[j] == diagnostics[j];
    }
  }

  /** `Candidats` holds exactly the rules at `Positions`, with their scores: the positive rules in load order. */
  lemma {:induction false} CandidatsPositions(diagnostics: seq<Diagnostic>, score: Diagnostic -> real)
    ensures var idx := Positions(diagnostics, score);
      var c := Candidats(diagnostics, score);
      && |idx| == |c|
      && forall i :: 0 <= i < |idx| ==> c[i] == (diagnostics[idx[i]], score(diagnostics[idx[i]]))
  {
    if diagnostics != [] {
      var n := |diagnostics| - 1;
      var init := diagnostics[..n];
      CandidatsPositions(init, score);
      var idx0, c0 := Positions(init, score), Candidats(init, score);
      var idx, c := Positions(diagnostics, score), Candidats(diagnostics, score);
      var note := score(diagnostics[n]);
      assert idx == idx0 + (if note > 0.0 then [n] else []);
      assert c == c0 + (if note > 0.0 then [(diagnostics[n], note)] else []);
      forall i | 0 <= i < |idx| ensures c[i] == (diagnostics[idx[i]], score(diagnostics[idx[i]])) {
        if i < |idx0| {
          assert idx[i] == idx0[i] && c[i] == c0[i];
          assert init[idx0[i]] == diagnostics[idx0[i]];
        }
      }
    }
  }

  /** The filter works rule by rule: the candidates of `a + b` are those of `a`, then those of `b`. */
  lemma {:induction false} CandidatsConcat(a: seq<Diagnostic>, b: seq<Diagnostic>, score: Diagnostic -> real)
    ensures Candidats(a + b, score) == Candidats(a, score) + Candidats(b, score)
  {
    if b == [] {
      assert a + b == a;
    } else {
      var init := b[..|b| - 1];
      var x := b[|b| - 1];
      var dernier := if score(x) > 0.0 then [(x, score(x))] else [];
      CandidatsConcat(a, init, score);
      assert (a + b)[..|a + b| - 1] == a + init;
      assert (a + b)[|a + b| - 1] == x;
      assert Candidats(a + b, score) == Candidats(a + init, score) + dernier;
      assert Candidats(b, score) == Candidats(init, score) + dernier;
    }
  }

  /** Every rule that scores above 0 is a candidate, so no rule outscores the best candidate. */
  lemma {:induction false} CandidatsComplets(diagnostics: seq<Diagnostic>, score: Diagnostic -> real, j: nat)
    requires j < |diagnostics| && score(diagnostics[j]) > 0.0
    ensures (diagnostics[j], score(diagnostics[j])) in Candidats(diagnostics, score)
  {
    var init := diagnostics[..|diagnostics| - 1];
    if j < |init| {
      CandidatsComplets(init, score, j);
      assert init[j] == diagnostics[j];
    }
  }

  /** The confidence tier of a score, on the unrounded score. */
  function Confiance(score: real, haute: real, moyenne: real): (c: string)
    ensures c == "Haute" <==> score >= haute
    ensures c == "Moyenne" <==> haute > score >= moyenne
    ensures c == "Faible" <==> score < haute && score < moyenne
  {
    if score >= haute then "Haute" else if score >= moyenne then "Moyenne" else "Faible"
  }

  /** The boundaries with the configured thresholds 0.85 and 0.60. */
  lemma ConfianceBornes()
    ensures Confiance(0.85, Config.SEUIL_CONFIANCE_HAUTE, Config.SEUIL_CONFIANCE_MOYENNE) == "Haute"
    ensures Confiance(0.8499, Config.SEUIL_CONFIANCE_HAUTE, Config.SEUIL_CONFIANCE_MOYENNE) == "Moyenne"
    ensures Confiance(0.8, Config.SEUIL_CONFIANCE_HAUTE, Config.SEUIL_CONFIANCE_MOYENNE) == "Moyenne"
    ensures Confiance(0.60, Config.SEUIL_CONFIANCE_HAUTE, Config.SEUIL_CONFIANCE_MOYENNE) == "Moyenne"
    ensures Confiance(0.5999, Config.SEUIL_CONFIANCE_HAUTE, Config.SEUIL_CONFIANCE_MOYENNE) == "Faible"
    ensures Confiance(0.25, Config.SEUIL_CONFIANCE_HAUTE, Config.SEUIL_CONFIANCE_MOYENNE) == "Faible"
  {
  }

  /** `_diagnostic_incertain`: the fixed "uncertain" diagnosis over the given symptom names. */
  function DiagnosticIncertain(noms: seq<string>): (r: Resultat)
    ensures r.Succes? && r.diagnostic == "Diagnostic incertain" && r.gravite == "Inconnu"
    ensures r.confiance == "Très faible" && r.score == 0.0 && r.coutEstimatif == "À déterminer"
    ensures r.symptomesUtilises == noms
  {
    Succes("Diagnostic incertain",
           "Les symptômes observés ne correspondent pas clairement à un problème connu.",
           "Inconnu", "À déterminer",
           Some("Une inspection complète par un mécanicien est recommandée."),
           "Très faible", 0.0, noms)
  }

  /** The success record for the winning rule. */
  function Reponse(d: Diagnostic, score: real, noms: seq<string>): (r: Resultat)
    ensures r.Succes? && r.diagnostic == d.nom && r.description == d.description
    ensures r.gravite == d.gravite && r.conseils == d.conseils && r.score == score
    ensures r.coutEstimatif == DiagnosticModel.ToDict(d)["cout_estimatif"].s
    ensures r.confiance == Confiance(score, Config.SEUIL_CONFIANCE_HAUTE, Config.SEUIL_CONFIANCE_MOYENNE)
    ensures r.symptomesUtilises == noms
  {
    Succes(d.nom, d.description, d.gravite, DiagnosticModel.CoutEstimatif(d.coutMin, d.coutMax),
           d.conseils, Confiance(score, Config.SEUIL_CONFIANCE_HAUTE, Config.SEUIL_CONFIANCE_MOYENNE),
           score, noms)
  }

  /** `rechercher_symptomes` after the search: hits whose id is in the catalog, in search order. */
  function Trouves(resultats: seq<(string, real)>, symptomes: map<string, Symptome>): (r: seq<(Symptome, real)>)
    requires IndexeParId(symptomes)
    ensures |r| <= |resultats|
    ensures forall i :: 0 <= i < |r| ==>
              (r[i].0.id in symptomes && symptomes[r[i].0.id] == r[i].0
               && exists j :: 0 <= j < |resultats| && resultats[j] == (r[i].0.id, r[i].1))
  {
    if resultats == [] then []
    else
      var init := resultats[..|resultats| - 1];
      var last := resultats[|resultats| - 1];
      var r := Trouves(init, symptomes);
      assert forall j :: 0 <= j < |init| ==> init[j] == resultats[j];
      if last.0 in symptomes then r + [(symptomes[last.0], last.1)] else r
  }

  /** Every search hit whose id is in the catalog is kept, with its stored symptom and its score. */
  lemma {:induction false} TrouvesComplets(resultats: seq<(string, real)>, symptomes: map<string, Symptome>, j: nat)
    requires IndexeParId(symptomes)
    requires j < |resultats| && resultats[j].0 in symptomes
    ensures (symptomes[resultats[j].0], resultats[j].1) in Trouves(resultats, symptomes)
  {
    var init := resultats[..|resultats| - 1];
    if j < |init| {
      TrouvesComplets(init, symptomes, j);
      assert init[j] == resultats[j];
    }
  }

  /** The lookup works hit by hit: the hits of `a + b` are those of `a`, then those of `b`, so search order is kept. */
  lemma {:induction false} TrouvesConcat(a: seq<(string, real)>, b: seq<(string, real)>, symptomes: map<string, Symptome>)
    requires IndexeParId(symptomes)
    ensures Trouves(a + b, symptomes) == Trouves(a, symptomes) + Trouves(b, symptomes)
  {
    if b == [] {
      assert a + b == a;
    } else {
      var init := b[..|b| - 1];
      TrouvesConcat(a, init, symptomes);
      assert (a + b)[..|a + b| - 1] == a + init;
      assert (a + b)[|a + b| - 1] == b[|b| - 1];
    }
  }

  /** Sorting keeps the order of what `Trouves` keeps, so its output stays best first. */
  lemma {:induction false} TrouvesOrdonnes(resultats: seq<(string, real)>, symptomes: map<string, Symptome>)
    requires IndexeParId(symptomes) && SortedDesc(resultats)
    ensures SortedDesc(Trouves(resultats, symptomes))
    ensures forall i :: 0 <= i < |Trouves(resultats, symptomes)| ==>
              Trouves(resultats, symptomes)[i].1 >= (if resultats == [] then 0.0 else resultats[|resultats| - 1].1)
  {
    if resultats != [] {
      var init, last := resultats[..|resultats| - 1], resultats[|resultats| - 1];
      TrouvesOrdonnes(init, symptomes);
      var r0 := Trouves(init, symptomes);
      assert Trouves(resultats, symptomes) == r0 + (if last.0 in symptomes then [(symptomes[last.0], last.1)] else []);
      if init != [] {
        assert init[|init| - 1].1 >= last.1;
      }
    }
  }

  /** The outcome of `diagnostiquer` once at least one id is valid: the uncertain record, or the best candidate. */
  function Choisir(candidats: seq<(Diagnostic, real)>, noms: seq<string>): Resultat {
    if candidats == [] then DiagnosticIncertain(noms)
    else
      var m := FirstMax(candidats);
      Reponse(candidats[m].0, candidats[m].1, noms)
  }

  /**
   * The chosen rule is a rule of the catalog, `diagnostics[k]`, with its own
   * score: that score is above 0, no rule of the catalog scores higher, and
   * every rule loaded before it scores strictly lower. So `k` is the first
   * position of the best score.
   */
  lemma MeilleurMaximal(diagnostics: seq<Diagnostic>, score: Diagnostic -> real)
    requires Candidats(diagnostics, score) != []
    ensures var c := Candidats(diagnostics, score);
      var m := FirstMax(c);
      && c[m].1 > 0.0
      && (forall j :: 0 <= j < |diagnostics| ==> score(diagnostics[j]) <= c[m].1)
      && exists k :: (0 <= k < |diagnostics| && c[m] == (diagnostics[k], score(diagnostics[k]))
                      && forall j :: 0 <= j < k ==> score(diagnostics[j]) < c[m].1)
  {
    var c := Candidats(diagnostics, score);
    var m := FirstMax(c);
    forall j | 0 <= j < |diagnostics| ensures score(diagnostics[j]) <= c[m].1 {
      if score(diagnostics[j]) > 0.0 {
        CandidatsComplets(diagnostics, score, j);
      }
    }
    var idx := Positions(diagnostics, score);
    CandidatsPositions(diagnostics, score);
    var k := idx[m];
    assert c[m] == (diagnostics[k], score(diagnostics[k]));
    forall j | 0 <= j < k ensures score(diagnostics[j]) < c[m].1 {
      if score(diagnostics[j]) > 0.0 {
        AvantPosition(diagnostics, score, m, j);
        var i :| 0 <= i < m && idx[i] == j;
        assert c[i] == (diagnostics[j], score(diagnostics[j]));
      }
    }
  }

  /** A rule before the position of rank `m` that scores above 0 has a smaller rank. */
  lemma AvantPosition(diagnostics: seq<Diagnostic>, score: Diagnostic -> real, m: nat, j: nat)
    requires m < |Positions(diagnostics, score)| && j < Positions(diagnostics, score)[m]
    requires score(diagnostics[j]) > 0.0
    ensures exists i :: 0 <= i < m && Positions(diagnostics, score)[i] == j
  {
    var idx := Positions(diagnostics, score);
    PositionsCompletes(diagnostics, score);
    assert j in idx;
    var i :| 0 <= i < |idx| && idx[i] == j;
  }

  /**
   * With every stored weight in its documented range 0.0 to 1.0, the weight
   * map of `diagnostiquer` is valid for the scorer, and the score it answers
   * with lies between 0 and 1.
   */
  lemma ScoreChoisiBorne(diagnostics: seq<Diagnostic>, valides: seq<string>, symptomes: map<string, Symptome>,
                         noms: seq<string>)
    requires forall k :: k in symptomes ==> SymptomeModel.PoidsValide(symptomes[k])
    ensures PoidsValides(PoidsCatalogue(symptomes))
    ensures var r := Choisir(Candidats(diagnostics, Notation(valides, PoidsCatalogue(symptomes))), noms);
      r.Succes? && 0.0 <= r.score <= 1.0
  {
    var c := Candidats(diagnostics, Notation(valides, PoidsCatalogue(symptomes)));
    if c != [] {
      var d := c[FirstMax(c)].0;
      ScoreBornes(valides, d.symptomesRequis, d.symptomesOptionnels, PoidsCatalogue(symptomes));
    }
  }

  class MoteurDiagnostic {
    /** `self.symptomes`: its keys in insertion order, and the dict itself. */
    var ordre: seq<string>
    var symptomes: map<string, Symptome>
    /** `self.diagnostics`, in load order. */
    var diagnostics: seq<Diagnostic>
    const vectorisation: VectorisationService

    ghost predicate Valid()
      reads this, vectorisation
    {
      && Distincts(ordre) && AsSet(ordre) == symptomes.Keys
      && IndexeParId(symptomes)
      && vectorisation.Valid()
    }

    lemma OrdreCatalogue()
      requires Valid()
      ensures forall k :: 0 <= k < |ordre| ==> ordre[k] in symptomes
      ensures forall id :: id in symptomes ==> exists k :: 0 <= k < |ordre| && ordre[k] == id
    {
      forall k | 0 <= k < |ordre| ensures ordre[k] in symptomes {
        assert ordre[k] in AsSet(ordre);
      }
      forall id | id in symptomes ensures exists k :: 0 <= k < |ordre| && ordre[k] == id {
        assert id in AsSet(ordre);
      }
    }

    /** `__init__` before loading: an empty catalog and a fresh vectorisation service. */
    constructor (encode: string -> Vecteur, cosinus: (Vecteur, Vecteur) -> real)
      ensures Valid()
      ensures ordre == [] && symptomes == map[] && diagnostics == []
      ensures fresh(vectorisation) && vectorisation.encode == encode && vectorisation.cosinus == cosinus
      ensures vectorisation.ordre == [] && vectorisation.vecteurs == map[]
    {
      ordre := [];
      symptomes := map[];
      diagnostics := [];
      vectorisation := new VectorisationService(encode, cosinus);
    }

    /** The symptom half of `_charger_donnees`: reads each record and stores it under its id. */
    method ChargerSymptomes(symptomesData: seq<Dict>) returns (r: Result<(), FieldError>)
      requires Valid()
      modifies this
      ensures Valid() && diagnostics == old(diagnostics)
      ensures r == (match LireTous(symptomesData, SymptomeModel.FromDict) case Err(e) => Err(e) case Ok(_) => Ok(()))
      ensures r.Ok? ==>
        var lus := LireTous(symptomesData, SymptomeModel.FromDict).value;
        symptomes == Cataloguer(old(symptomes), lus) && ordre == Ordonner(old(ordre), lus)
    {
      ghost var s0, o0 := symptomes, ordre;
      ghost var lus: seq<Symptome> := [];
      var i := 0;
      while i < |symptomesData|
        invariant 0 <= i <= |symptomesData|
        invariant LireTous(symptomesData[..i], SymptomeModel.FromDict) == Ok(lus)
        invariant symptomes == Cataloguer(s0, lus) && ordre == Ordonner(o0, lus)
        invariant diagnostics == old(diagnostics)
        invariant Valid()
      {
        var lu := SymptomeModel.FromDict(symptomesData[i]);
        LireTousSnoc(symptomesData, i, SymptomeModel.FromDict);
        if lu.Err? {
          LireTousErreur(symptomesData, i + 1, SymptomeModel.FromDict);
          return Err(lu.error);
        }
        var s := lu.value;
        Stocker(s);
        assert (lus + [s])[..|lus|] == lus;
        lus := lus + [s];
        i := i + 1;
      }
      assert symptomesData[..i] == symptomesData;
      r := Ok(());
    }

    /** `self.symptomes[s.id] = s`. */
    method Stocker(s: Symptome)
      requires Valid()
      modifies this
      ensures Valid() && diagnostics == old(diagnostics)
      ensures symptomes == old(symptomes)[s.id := s]
      ensures ordre == if s.id in old(ordre) then old(ordre) else old(ordre) + [s.id]
    {
      if s.id !in symptomes {
        AsSetSnoc(ordre, s.id);
        ordre := ordre + [s.id];
      } else {
        assert s.id in AsSet(ordre);
      }
      symptomes := symptomes[s.id := s];
    }

    /** The rule half of `_charger_donnees`: reads each record and appends it. */
    method ChargerRegles(reglesData: seq<Dict>) returns (r: Result<(), FieldError>)
      requires Valid()
      modifies this
      ensures Valid() && symptomes == old(symptomes) && ordre == old(ordre)
      ensures r == (match LireTous(reglesData, DiagnosticModel.FromDict) case Err(e) => Err(e) case Ok(_) => Ok(()))
      ensures r.Ok? ==> diagnostics == old(diagnostics) + LireTous(reglesData, DiagnosticModel.FromDict).value
    {
      var j := 0;
      while j < |reglesData|
        invariant 0 <= j <= |reglesData|
        invariant LireTous(reglesData[..j], DiagnosticModel.FromDict).Ok?
        invariant diagnostics == old(diagnostics) + LireTous(reglesData[..j], DiagnosticModel.FromDict).value
        invariant symptomes == old(symptomes) && ordre == old(ordre)
        invariant Valid()
      {
        assert reglesData[..j + 1][..j] == reglesData[..j];
        var lu := DiagnosticModel.FromDict(reglesData[j]);
        if lu.Err? {
          LireTousErreur(reglesData, j + 1, DiagnosticModel.FromDict);
          return Err(lu.error);
        }
        diagnostics := diagnostics + [lu.value];
        j := j + 1;
      }
      assert reglesData[..j] == reglesData;
      r := Ok(());
    }

    /**
     * `_charger_donnees` on already parsed records: the symptoms, then the
     * rules, then the vectorisation of the stored symptoms in dict order.
     * The first record that does not read stops the load with its error.
     */
    method ChargerDonnees(symptomesData: seq<Dict>, reglesData: seq<Dict>) returns (r: Result<(), FieldError>)
      requires Valid()
      modifies this, vectorisation
      ensures Valid()
      ensures r == Chargement(symptomesData, reglesData)
      ensures r.Ok? ==>
        var lus := LireTous(symptomesData, SymptomeModel.FromDict).value;
        && symptomes == Cataloguer(old(symptomes), lus)
        && ordre == Ordonner(old(ordre), lus)
        && diagnostics == old(diagnostics) + LireTous(reglesData, DiagnosticModel.FromDict).value
      ensures forall k :: 0 <= k < |ordre| ==> ordre[k] in symptomes
      ensures r.Ok? ==>
        && vectorisation.vecteurs == Indexer(old(vectorisation.vecteurs), Valeurs(ordre, symptomes), vectorisation.encode)
        && vectorisation.ordre == Ordonner(old(vectorisation.ordre), Valeurs(ordre, symptomes))
    {
      r := ChargerSymptomes(symptomesData);
      if r.Err? {
        OrdreCatalogue();
        return;
      }
      r := ChargerRegles(reglesData);
      OrdreCatalogue();
      if r.Err? {
        return;
      }
      vectorisation.VectoriserSymptomes(Valeurs(ordre, symptomes));
    }

    /** `get_symptomes_disponibles`: one dict per stored symptom, in dict order. */
    function GetSymptomesDisponibles(): (r: seq<Dict>)
      requires Valid()
      reads this, vectorisation
      ensures |r| == |ordre|
      ensures forall k :: 0 <= k < |ordre| ==> ordre[k] in symptomes && SymptomeModel.FromDict(r[k]) == Ok(symptomes[ordre[k]])
      ensures forall id :: id in symptomes ==> exists k :: 0 <= k < |r| && r[k] == SymptomeModel.ToDict(symptomes[id])
    {
      OrdreCatalogue();
      var valeurs := Valeurs(ordre, symptomes);
      var r := seq(|valeurs|, k requires 0 <= k < |valeurs| => SymptomeModel.ToDict(valeurs[k]));
      assert forall k :: 0 <= k < |ordre| ==> SymptomeModel.FromDict(r[k]) == Ok(symptomes[ordre[k]]) by {
        forall k | 0 <= k < |ordre| ensures SymptomeModel.FromDict(r[k]) == Ok(symptomes[ordre[k]]) {
          assert r[k] == SymptomeModel.ToDict(valeurs[k]);
          SymptomeModel.FromDictToDict(valeurs[k]);
        }
      }
      r
    }

    /**
     * `rechercher_symptomes`: the similarity search with the default threshold,
     * keeping the hits whose id is in the catalog, in search order.
     */
    method RechercherSymptomes(texte: string, topK: int) returns (r: seq<(Symptome, real)>)
      requires Valid()
      ensures IsBlank(texte) ==> r == []
      ensures !IsBlank(texte) ==>
        r == Trouves(Take(SortDesc(Similarites(vectorisation.ordre, vectorisation.vecteurs,
                                               vectorisation.encode(texte), Config.SEUIL_SIMILARITE,
                                               vectorisation.cosinus)), topK), symptomes)
      ensures topK >= 0 ==> |r| <= topK
      ensures forall i :: 0 <= i < |r| ==>
                r[i].0.id in symptomes && symptomes[r[i].0.id] == r[i].0 && r[i].1 >= Config.SEUIL_SIMILARITE
      ensures SortedDesc(r)
    {
      var resultats := vectorisation.TrouverSymptomesSimilaires(texte, topK, Config.SEUIL_SIMILARITE);
      r := Retrouver(resultats);
      TrouvesOrdonnes(resultats, symptomes);
    }

    /** The loop of `rechercher_symptomes`: each hit whose id is in the catalog, with its stored symptom. */
    method Retrouver(resultats: seq<(string, real)>) returns (r: seq<(Symptome, real)>)
      requires Valid()
      ensures r == Trouves(resultats, symptomes)
    {
      r := [];
      var i := 0;
      while i < |resultats|
        invariant 0 <= i <= |resultats|
        invariant r == Trouves(resultats[..i], symptomes)
      {
        var (id, score) := resultats[i];
        assert resultats[..i + 1][..i] == resultats[..i];
        if id in symptomes {
          r := r + [(symptomes[id], score)];
        }
        i := i + 1;
      }
      assert resultats[..i] == resultats;
    }

    /**
     * `diagnostiquer`: rejects an empty list and a list with no catalog id;
     * otherwise scores every rule against the valid ids, keeps the rules
     * scoring above 0, sorts them best first (stable) and answers with the
     * first, or with the uncertain record when none is left.
     */
    method Diagnostiquer(ids: seq<string>) returns (r: Resultat)
      requires Valid()
      ensures ids == [] ==> r == Echec(AUCUN_SYMPTOME_FOURNI)
      ensures ids != [] && Valides(ids, symptomes) == [] ==> r == Echec(AUCUN_SYMPTOME_VALIDE)
      ensures ids != [] && Valides(ids, symptomes) != [] ==>
        var valides := Valides(ids, symptomes);
        r == Choisir(Candidats(diagnostics, Notation(valides, PoidsCatalogue(symptomes))), Noms(valides, symptomes))
    {
      if ids == [] {
        return Echec(AUCUN_SYMPTOME_FOURNI);
      }
      var valides := Valides(ids, symptomes);
      if valides == [] {
        return Echec(AUCUN_SYMPTOME_VALIDE);
      }
      var poids := PoidsCatalogue(symptomes);
      var resultats := Evaluer(valides, poids);
      SortDescSorted(resultats);
      var tries := SortDesc(resultats);
      var noms := Noms(valides, symptomes);
      if tries == [] {
        return DiagnosticIncertain(noms);
      }
      SortDescHead(resultats);
      var meilleur := tries[0];
      r := Reponse(meilleur.0, meilleur.1, noms);
    }
  

    /** The loop of `diagnostiquer`: every rule scored against the valid ids, those above 0 kept in rule order. */
    method Evaluer(valides: seq<string>, poids: map<string, real>) returns (resultats: seq<(Diagnostic, real)>)
      ensures resultats == Candidats(diagnostics, Notation(valides, poids))
    {
      resultats := [];
      var i := 0;
      while i < |diagnostics|
        invariant 0 <= i <= |diagnostics|
        invariant resultats == Candidats(diagnostics[..i], Notation(valides, poids))
      {
        var d := diagnostics[i];
        var score := ScoreRegle(valides, d.symptomesRequis, d.symptomesOptionnels, poids);
        assert diagnostics[..i + 1][..i] == diagnostics[..i];
        if score > 0.0 {
          resultats := resultats + [(d, score)];
        }
        i := i + 1;
      }
      assert diagnostics[..i] == diagnostics;
    }
  }
}
