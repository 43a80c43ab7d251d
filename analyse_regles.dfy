/**
 * The first-match engine of `server/moteur_diagnostic.py` (`analyser_symptomes`):
 * the first rule, in list order, whose required symptoms all occur among the
 * user's symptoms is returned without its `symptomes_requis` entry.
 * The rule list is passed in; reading it from `regles.json` is not modelled.
 */
module AnalyseRegles {
  import opened Wrappers
  import opened Json
  import opened Vectorisation

  const CLE_REQUIS: string := "symptomes_requis"

  /** The record returned when the rule list is empty. */
  const ERREUR_CONFIGURATION: Dict :=
    map["diagnostic" := Str("Erreur de configuration"),
        "gravite" := Str("Inconnue"),
        "cout_estimatif" := Str("N/A"),
        "erreur" := Str("Impossible de charger les règles de diagnostic.")]

  /** The record returned when no rule matches. */
  const INCERTAIN: Dict :=
    map["diagnostic" := Str("Diagnostic incertain"),
        "gravite" := Str("Inconnue"),
        "cout_estimatif" := Str("N/A"),
        "detail" := Str("Les symptômes fournis ne correspondent à aucun problème connu.")]

  /**
   * Both fixed records carry the three display keys; only the configuration
   * error has an `erreur` key and only the uncertain record a `detail` key.
   */
  lemma EnregistrementsFixes()
    ensures ERREUR_CONFIGURATION.Keys == {"diagnostic", "gravite", "cout_estimatif", "erreur"}
    ensures INCERTAIN.Keys == {"diagnostic", "gravite", "cout_estimatif", "detail"}
    ensures ERREUR_CONFIGURATION["gravite"] == INCERTAIN["gravite"] == Str("Inconnue")
  {
  }

  /** `regle["symptomes_requis"]`, read as a list of ids. */
  function Requis(regle: Dict): Result<seq<string>, FieldError> {
    StrListField(regle, CLE_REQUIS)
  }

  /** `regle.copy()` followed by `pop('symptomes_requis', None)`. */
  function SansRequis(regle: Dict): (r: Dict)
    ensures r.Keys == regle.Keys - {CLE_REQUIS}
    ensures forall k :: k in r ==> r[k] == regle[k]
  {
    regle - {CLE_REQUIS}
  }

  /** Rule `regle` matches when its required ids form a subset of the user's. */
  predicate Correspond(utilisateur: set<string>, regle: Dict)
    requires Requis(regle).Ok?
  {
    AsSet(Requis(regle).value) <= utilisateur
  }

  /** The scan over the rules, first match wins; an unreadable rule met on the way is an error. */
  function Premier(utilisateur: set<string>, regles: seq<Dict>): Result<Dict, FieldError> {
    if regles == [] then Ok(INCERTAIN)
    else
      match Requis(regles[0])
      case Err(e) => Err(e)
      case Ok(_) =>
        if Correspond(utilisateur, regles[0]) then Ok(SansRequis(regles[0]))
        else Premier(utilisateur, regles[1..])
  }

  /** `analyser_symptomes` on a given rule list. */
  function Analyse(utilisateur: seq<string>, regles: seq<Dict>): Result<Dict, FieldError> {
    if regles == [] then Ok(ERREUR_CONFIGURATION) else Premier(AsSet(utilisateur), regles)
  }

  /** No rule before `k` matches. */
  predicate AucuneAvant(utilisateur: set<string>, regles: seq<Dict>, k: nat)
    requires k <= |regles|
  {
    forall j :: 0 <= j < k ==> Requis(regles[j]).Ok? && !Correspond(utilisateur, regles[j])
  }

  /** When rule `k` is the first to match, the result is rule `k` without its required list. */
  lemma {:induction false} PremierIndex(utilisateur: set<string>, regles: seq<Dict>, k: nat)
    requires k < |regles| && AucuneAvant(utilisateur, regles, k)
    requires Requis(regles[k]).Ok? && Correspond(utilisateur, regles[k])
    ensures Premier(utilisateur, regles) == Ok(SansRequis(regles[k]))
  {
    if k > 0 {
      assert Requis(regles[0]).Ok? && !Correspond(utilisateur, regles[0]);
      PremierIndex(utilisateur, regles[1..], k - 1);
    }
  }

  /** When no rule matches, the result is the uncertain record. */
  lemma {:induction false} PremierAucune(utilisateur: set<string>, regles: seq<Dict>)
    requires AucuneAvant(utilisateur, regles, |regles|)
    ensures Premier(utilisateur, regles) == Ok(INCERTAIN)
  {
    if regles != [] {
      assert Requis(regles[0]).Ok? && !Correspond(utilisateur, regles[0]);
      PremierAucune(utilisateur, regles[1..]);
    }
  }

  /** When the scan reaches an unreadable rule, the result is that rule's error. */
  lemma {:induction false} PremierErreur(utilisateur: set<string>, regles: seq<Dict>, k: nat)
    requires k < |regles| && AucuneAvant(utilisateur, regles, k) && Requis(regles[k]).Err?
    ensures Premier(utilisateur, regles) == Err(Requis(regles[k]).error)
  {
    if k > 0 {
      assert Requis(regles[0]).Ok? && !Correspond(utilisateur, regles[0]);
      PremierErreur(utilisateur, regles[1..], k - 1);
    }
  }

  /** A rule with no required symptom matches every input, the empty one included. */
  lemma {:induction false} RequisVideCorrespond(utilisateur: seq<string>, regles: seq<Dict>, k: nat)
    requires k < |regles| && Requis(regles[k]) == Ok([])
    requires forall j :: 0 <= j < k ==> Requis(regles[j]).Ok?
    ensures exists j :: 0 <= j <= k && Analyse(utilisateur, regles) == Ok(SansRequis(regles[j]))
  {
    var u := AsSet(utilisateur);
    if j :| 0 <= j < k && Correspond(u, regles[j]) {
      var f := PlusPetit(u, regles, j);
      PremierIndex(u, regles, f);
    } else {
      assert AsSet(Requis(regles[k]).value) == {};
      PremierIndex(u, regles, k);
    }
  }

  /** The first matching index at or before `j`, given that `j` matches. */
  lemma {:induction false} PlusPetit(u: set<string>, regles: seq<Dict>, j: nat) returns (f: nat)
    requires j < |regles| && Requis(regles[j]).Ok? && Correspond(u, regles[j])
    requires forall i :: 0 <= i < j ==> Requis(regles[i]).Ok?
    ensures f <= j && AucuneAvant(u, regles, f) && Requis(regles[f]).Ok? && Correspond(u, regles[f])
  {
    if AucuneAvant(u, regles, j) {
      f := j;
    } else {
      var i :| 0 <= i < j && !(Requis(regles[i]).Ok? && !Correspond(u, regles[i]));
      f := PlusPetit(u, regles, i);
    }
  }

  /** The order and the repetitions of the user's symptoms do not matter, only their set. */
  lemma MemeEnsemble(u1: seq<string>, u2: seq<string>, regles: seq<Dict>)
    requires multiset(u1) == multiset(u2) || AsSet(u1) == AsSet(u2)
    ensures Analyse(u1, regles) == Analyse(u2, regles)
  {
    if multiset(u1) == multiset(u2) {
      assert forall x :: x in u1 <==> x in multiset(u1);
      assert forall x :: x in u2 <==> x in multiset(u2);
      assert AsSet(u1) == AsSet(u2);
    }
  }

  /**
   * `analyser_symptomes`: the configuration-error record for an empty rule
   * list, else the first matching rule without its required list, else the
   * uncertain record.
   */
  method AnalyserSymptomes(utilisateur: seq<string>, regles: seq<Dict>) returns (r: Result<Dict, FieldError>)
    ensures r == Analyse(utilisateur, regles)
    ensures regles == [] ==> r == Ok(ERREUR_CONFIGURATION)
    ensures r.Ok? && regles != [] ==>
      (AucuneAvant(AsSet(utilisateur), regles, |regles|) && r.value == INCERTAIN)
      || exists k :: 0 <= k < |regles| && AucuneAvant(AsSet(utilisateur), regles, k)
           && Requis(regles[k]).Ok? && Correspond(AsSet(utilisateur), regles[k]) && r.value == SansRequis(regles[k])
  {
    var ensemble := AsSet(utilisateur);
    if regles == [] {
      return Ok(ERREUR_CONFIGURATION);
    }
    var i := 0;
    while i < |regles|
      invariant 0 <= i <= |regles|
      invariant AucuneAvant(ensemble, regles, i)
    {
      var requis := Requis(regles[i]);
      if requis.Err? {
        PremierErreur(ensemble, regles, i);
        return Err(requis.error);
      }
      if AsSet(requis.value) <= ensemble {
        PremierIndex(ensemble, regles, i);
        return Ok(SansRequis(regles[i]));
      }
      i := i + 1;
    }
    PremierAucune(ensemble, regles);
    r := Ok(INCERTAIN);
  }
}
