/**
 * The request validators of `server/utils/validation.py`: chains of guards
 * on a decoded JSON body, the first failing guard giving the message.
 * The symptom-count bounds are parameters (1 and 5 in the configuration).
 */
module Validation {
  import opened Wrappers
  import opened Json
  import opened Texte
  import Config

  const FORMAT_INVALIDE: string := "Format de requête invalide"
  const PAS_UNE_LISTE: string := "Les symptômes doivent être une liste"
  const PAS_DES_CHAINES: string := "Tous les symptômes doivent être des chaînes de caractères"
  const AUCUN_VALIDE: string := "Aucun symptôme valide fourni"
  const TEXTE_PAS_CHAINE: string := "Le texte doit être une chaîne de caractères"
  const TEXTE_VIDE: string := "Le texte de recherche ne peut pas être vide"
  const TEXTE_COURT: string := "Le texte doit contenir au moins 3 caractères"
  const TEXTE_LONG: string := "Le texte est trop long (maximum 200 caractères)"

  function MessageMinimum(minS: int): string {
    "Minimum " + IntStr(minS) + " symptôme requis"
  }

  function MessageMaximum(maxS: int): string {
    "Maximum " + IntStr(maxS) + " symptômes autorisés"
  }

  /** What cleaning keeps of an entry: something non-empty with no surrounding whitespace. */
  predicate Propre(s: string) {
    s != [] && IsTrimmed(s)
  }

  /** `[s.strip() for s in ss if s.strip()]`. */
  function Nettoyer(ss: seq<string>): (r: seq<string>)
    ensures |r| <= |ss|
    ensures forall i :: 0 <= i < |r| ==> Propre(r[i])
  {
    if ss == [] then []
    else
      var t := Strip(ss[|ss| - 1]);
      Nettoyer(ss[..|ss| - 1]) + (if t != [] then [t] else [])
  }

  /** Cleaning works entry by entry: the result for `a + b` is the result for `a` followed by the one for `b`. */
  lemma {:induction false} NettoyerConcat(a: seq<string>, b: seq<string>)
    ensures Nettoyer(a + b) == Nettoyer(a) + Nettoyer(b)
  {
    if b == [] {
      assert a + b == a;
    } else {
      var init, t := b[..|b| - 1], Strip(b[|b| - 1]);
      var dernier := if t != [] then [t] else [];
      NettoyerConcat(a, init);
      assert (a + b)[..|a + b| - 1] == a + init;
      assert (a + b)[|a + b| - 1] == b[|b| - 1];
      assert Nettoyer(a + b) == Nettoyer(a + init) + dernier;
      assert Nettoyer(b) == Nettoyer(init) + dernier;
    }
  }

  /** One entry is kept, stripped, exactly when it is not blank. */
  lemma NettoyerUn(x: string)
    ensures Nettoyer([x]) == if IsBlank(x) then [] else [Strip(x)]
  {
  }

  /** Cleaning a list of clean entries gives it back unchanged. */
  lemma NettoyerPropre(ss: seq<string>)
    requires forall i :: 0 <= i < |ss| ==> Propre(ss[i])
    ensures Nettoyer(ss) == ss
  {
    forall i | 0 <= i < |ss| ensures ss[i] != [] && Strip(ss[i]) == ss[i] {
      StripTrimmed(ss[i]);
    }
    NettoyerFixe(ss);
  }

  /** Cleaning keeps a list whose entries are non-empty and unchanged by `strip()`. */
  lemma {:induction false} NettoyerFixe(ss: seq<string>)
    requires forall i :: 0 <= i < |ss| ==> ss[i] != [] && Strip(ss[i]) == ss[i]
    ensures Nettoyer(ss) == ss
  {
    if ss != [] {
      var init, last := ss[..|ss| - 1], ss[|ss| - 1];
      assert forall i :: 0 <= i < |init| ==> init[i] == ss[i];
      NettoyerFixe(init);
      assert Nettoyer(ss) == Nettoyer(init) + [last];
      assert init + [last] == ss;
    }
  }

  /** Cleaning leaves nothing exactly when every entry is blank. */
  lemma {:induction false} NettoyerVide(ss: seq<string>)
    ensures Nettoyer(ss) == [] <==> forall i :: 0 <= i < |ss| ==> IsBlank(ss[i])
  {
    if ss != [] {
      var init, last := ss[..|ss| - 1], ss[|ss| - 1];
      NettoyerVide(init);
      assert (forall i :: 0 <= i < |ss| ==> IsBlank(ss[i]))
         <==> (forall i :: 0 <= i < |init| ==> IsBlank(init[i])) && IsBlank(last);
    }
  }

  /**
   * `valider_requete_diagnostic`: the body must be an object whose
   * `symptomes` entry (an empty list when absent) is a list of `minS` to
   * `maxS` strings, not all blank; the result is the stripped non-blank
   * entries, in order.
   */
  function ValiderRequeteDiagnostic(data: Value, minS: int, maxS: int): (r: Result<seq<string>, string>)
    ensures !data.Obj? ==> r == Err(FORMAT_INVALIDE)
    ensures data.Obj? && !Get(data.fields, "symptomes", Arr([])).Arr? ==> r == Err(PAS_UNE_LISTE)
    ensures data.Obj? && Get(data.fields, "symptomes", Arr([])).Arr? ==>
      var items := Get(data.fields, "symptomes", Arr([])).items;
      && (|items| < minS ==> r == Err(MessageMinimum(minS)))
      && (minS <= |items| && |items| > maxS ==> r == Err(MessageMaximum(maxS)))
      && (minS <= |items| <= maxS && AsStrings(Arr(items)).None? ==> r == Err(PAS_DES_CHAINES))
      && (minS <= |items| <= maxS && AsStrings(Arr(items)).Some? ==>
            var propres := Nettoyer(AsStrings(Arr(items)).value);
            r == if propres == [] then Err(AUCUN_VALIDE) else Ok(propres))
    ensures r.Ok? ==> 1 <= |r.value| && (|r.value| <= maxS)
    ensures r.Ok? ==> forall i :: 0 <= i < |r.value| ==> Propre(r.value[i])
  {
    if !data.Obj? then Err(FORMAT_INVALIDE)
    else
      var symptomes := Get(data.fields, "symptomes", Arr([]));
      if !symptomes.Arr? then Err(PAS_UNE_LISTE)
      else if |symptomes.items| < minS then Err(MessageMinimum(minS))
      else if |symptomes.items| > maxS then Err(MessageMaximum(maxS))
      else
        match AsStrings(symptomes)
        case None => Err(PAS_DES_CHAINES)
        case Some(ss) =>
          var propres := Nettoyer(ss);
          if propres == [] then Err(AUCUN_VALIDE) else Ok(propres)
  }

  /** A body without `symptomes` is rejected by the minimum check. */
  lemma SansSymptomes(data: Value, minS: int, maxS: int)
    requires data.Obj? && "symptomes" !in data.fields && minS >= 1
    ensures ValiderRequeteDiagnostic(data, minS, maxS) == Err(MessageMinimum(minS))
  {
  }

  /** Validating the cleaned list again accepts it unchanged. */
  lemma {:induction false} RequeteDiagnosticIdempotente(data: Value, minS: int, maxS: int)
    requires ValiderRequeteDiagnostic(data, minS, maxS).Ok? && minS <= 1
    ensures var propres := ValiderRequeteDiagnostic(data, minS, maxS).value;
      ValiderRequeteDiagnostic(Obj(map["symptomes" := StrArr(propres)]), minS, maxS) == Ok(propres)
  {
    var propres := ValiderRequeteDiagnostic(data, minS, maxS).value;
    StrArrAsStrings(propres);
    NettoyerPropre(propres);
  }

  /**
   * `valider_recherche`: the body must be an object whose `texte` entry (an
   * empty string when absent) is a string of 3 to 200 characters once
   * stripped; the result is the stripped text.
   */
  function ValiderRecherche(data: Value): (r: Result<string, string>)
    ensures !data.Obj? ==> r == Err(FORMAT_INVALIDE)
    ensures data.Obj? && !Get(data.fields, "texte", Str("")).Str? ==> r == Err(TEXTE_PAS_CHAINE)
    ensures data.Obj? && Get(data.fields, "texte", Str("")).Str? ==>
      var t := Strip(Get(data.fields, "texte", Str("")).s);
      && (IsBlank(Get(data.fields, "texte", Str("")).s) ==> r == Err(TEXTE_VIDE))
      && (0 < |t| < 3 ==> r == Err(TEXTE_COURT))
      && (|t| > 200 ==> r == Err(TEXTE_LONG))
      && (3 <= |t| <= 200 ==> r == Ok(t))
    ensures r.Ok? ==> 3 <= |r.value| <= 200 && IsTrimmed(r.value)
  {
    if !data.Obj? then Err(FORMAT_INVALIDE)
    else
      var texte := Get(data.fields, "texte", Str(""));
      if !texte.Str? then Err(TEXTE_PAS_CHAINE)
      else
        var t := Strip(texte.s);
        if t == [] then Err(TEXTE_VIDE)
        else if |t| < 3 then Err(TEXTE_COURT)
        else if |t| > 200 then Err(TEXTE_LONG)
        else Ok(t)
  }

  /** Validating the returned text again accepts it unchanged. */
  lemma RechercheIdempotente(data: Value)
    requires ValiderRecherche(data).Ok?
    ensures var t := ValiderRecherche(data).value;
      ValiderRecherche(Obj(map["texte" := Str(t)])) == Ok(t)
  {
    StripTrimmed(ValiderRecherche(data).value);
  }

  /** With the configured bounds, an empty body asks for at least one symptom. */
  lemma MinimumConfigure(data: Value)
    requires data == Obj(map[])
    ensures ValiderRequeteDiagnostic(data, Config.MIN_SYMPTOMES_PAR_REQUETE, Config.MAX_SYMPTOMES_PAR_REQUETE)
         == Err("Minimum 1 symptôme requis")
  {
    assert Digits(1) == [DigitChar(1)] == "1";
    assert "Minimum " + "1" + " symptôme requis" == "Minimum 1 symptôme requis";
  }
}
