# diagnostika — a Dafny model of the diagnostic engine

Diagnostika suggests a probable car fault from a set of observed symptoms. It
also finds symptom identifiers from free text. This project models the
server side of that engine in Dafny and proves properties of the model. The
model covers:

- the **data models**: `Symptome` and `Diagnostic`, their dict forms, their
  defaults, identity equality, and the thousands-grouped cost string;
- the **vectorisation service**: the embedding index, the similarity search
  with its stable descending sort and `top_k` cut, and the weighted rule
  scorer `calculer_score_regle`;
- the **diagnostic engine** `MoteurDiagnostic`, which:
  - loads the catalog from already parsed records;
  - lists the symptoms;
  - searches symptoms;
  - filters ids, scores every rule, ranks the candidates and classifies the
    confidence;
  - builds the success, uncertain and failure records;
- the **first-match engine** `analyser_symptomes`;
- the **request validators** for the diagnosis and search endpoints;
- the **parser** for the structured reply of the text-generation model, and
  its two offline fallbacks.

The model follows the source's own form:

- The two services are classes whose methods update their fields. A Python
  dict is modelled as a key sequence plus a `map`, so insertion order is
  kept.
- Loops are `while` loops with invariants. Each method is proved equal to a
  function that defines its result.
- Python's `list.sort(key=..., reverse=True)` is a stable insertion sort
  (`Ranking.SortDesc`). Its sortedness, permutation, stability and head are
  proved.
- Scores are exact `real`s.
- The embedding model and cosine similarity are two functions given to the
  vectorisation service when it is built.
- A `KeyError` from `from_dict` is an `Err` result.

Files, one module each:

| file | models |
|---|---|
| `wrappers.dfy` | `Option` and `Result` |
| `texte.dfy` | `str.strip`, `isspace`, `join`, `in`, `str(int)` |
| `json.dfy` | decoded JSON values and the field reads of `from_dict` |
| `config.dfy` | the configuration constants |
| `ranking.dfy` | stable descending sort, slice, first maximum |
| `symptome.dfy` | `server/models/symptome.py` |
| `diagnostic.dfy` | `server/models/diagnostic.py` |
| `vectorisation.dfy` | `server/services/vectorisation.py` |
| `moteur_diagnostic.dfy` | `server/services/moteur_diagnostic.py` |
| `analyse_regles.dfy` | `server/moteur_diagnostic.py` |
| `validation.dfy` | `server/utils/validation.py` |
| `assistant_ia.dfy` | the local logic of `server/assistant_ia.py` |

## Model

| member | source | states |
|---|---|---|
| Texte.Strip | server/utils/validation.py:34 | `str.strip()`. The result is the input with a blank prefix and a blank suffix removed, and has no whitespace at either end, so it is the text between the leading and the trailing whitespace. It is empty exactly when the input is all whitespace. |
| Texte.StripIdempotent | server/utils/validation.py:59 | Stripping twice gives the same text as stripping once. |
| Texte.StripSousChaine | server/assistant_ia.py:88-93 | `strip()` returns a contiguous part of its input and adds no character. |
| Texte.StripSansCaractere | server/assistant_ia.py:89-91 | A character absent from a text is absent from its stripped form. |
| Texte.JoinContains | server/assistant_ia.py:107 | Every item of `', '.join(items)` appears verbatim in the joined text. |
| Texte.IntStr | server/utils/validation.py:23-27 | `str(i)`. For `i >= 0` it is a non-empty string of decimal digits that reads back as `i`, with a leading `0` only for 0. For `i < 0` it is `-` followed by such digits reading back as `-i`, with no leading `0`. |
| Texte.DigitsDecimal | server/models/diagnostic.py:29 | The decimal digits of `n` read back as `n`, with no leading zero. |
| Json.StrField | server/models/symptome.py:36-37 | `data['key']` for a string: a missing key is `MissingKey`; a present key succeeds exactly when it holds a string, and yields that string. |
| Json.OptStrField | server/models/symptome.py:38-39 | `data.get(key)` for an optional string: a missing key or `null` is `None`, a string is `Some`, anything else an error. |
| Json.IntField | server/models/diagnostic.py:43-44 | `data['key']` for an integer: missing is `MissingKey`; present succeeds exactly when it holds an integer. |
| Json.StrListField | server/models/diagnostic.py:45 | Reading a list-of-strings field. A missing key is `MissingKey`. Otherwise the read succeeds exactly when the value is a list of strings, and it returns those strings. |
| Json.OptStrListField | server/models/diagnostic.py:46 | A missing key reads as the empty list. `null` reads as `None`. Otherwise the value must be a list of strings. |
| Json.RealField | server/models/symptome.py:40 | `data.get(key, default)` for a number. An absent key gives the default. An integer is widened to a real. |
| Ranking.Take | server/services/vectorisation.py:72 | `s[:k]` is a prefix of `s` of length `min(k, len(s))`. For negative `k` it drops `-k` entries from the end. |
| Ranking.FirstMax | server/services/moteur_diagnostic.py:118-124 | The index of the first entry with the greatest score. No entry scores higher, and every earlier entry scores strictly lower. |
| Ranking.SortDescSorted | server/services/vectorisation.py:70 | The sort returns a non-increasing permutation (same multiset, same length) of its input. |
| Ranking.SortDescStable | server/services/moteur_diagnostic.py:118 | Stability: the entries with any given score keep their input order. |
| Ranking.SortDescHead | server/services/moteur_diagnostic.py:118-124 | After sorting, the first entry is the earliest entry with the greatest score. |
| Ranking.SortDescKeeps | server/services/vectorisation.py:66-70 | Sorting keeps every key inside a given key set and every score above a given bound. |
| Ranking.SortDescDistinct | server/services/vectorisation.py:60-70 | Sorting never duplicates a key. |
| SymptomeModel.EgalCoherent | server/models/symptome.py:14-20 | `__eq__` compares ids only and is an equivalence. Equal symptoms have equal `__hash__`. |
| SymptomeModel.ToDict | server/models/symptome.py:22-30 | `to_dict` has exactly the keys id, nom, description, categorie and poids, holding the fields' values. |
| SymptomeModel.FromDict | server/models/symptome.py:32-41 | A missing `id` or `nom` is an error. description and categorie default to `None`, and poids defaults to 1.0. A present description or categorie is copied, null being `None`. A present poids is copied, an integer being widened. |
| SymptomeModel.FromDictToDict | server/models/symptome.py:22-41 | `from_dict(to_dict(s))` reproduces all five fields of `s`. |
| SymptomeModel.FromDictDefaults | server/models/symptome.py:35-41 | A record with only id and nom gets the dataclass defaults. |
| DiagnosticModel.NouveauDiagnostic | server/models/diagnostic.py:15-20 | `__post_init__`: `symptomes_optionnels = None` becomes `[]`. Every other field is stored as given. |
| DiagnosticModel.GroupsShape | server/models/diagnostic.py:29 | The `{:,}` grouping of `n`: the first group has 1-3 digits and every later group exactly 3. The groups concatenate to `str(n)`. |
| DiagnosticModel.GroupedDigits | server/models/diagnostic.py:29 | Removing the separating spaces from the grouped form of `n` gives `str(n)`. |
| DiagnosticModel.DixMille | server/models/diagnostic.py:29 | 10000 is written `10 000`, and the cost range contains `10 000Ar`. |
| DiagnosticModel.ToDict | server/models/diagnostic.py:22-33 | `to_dict` has exactly the eight keys and copies id, nom, description, gravite, both symptom lists and conseils. `cout_estimatif` is the formatted range. `cout_min` and `cout_max` are not exposed. |
| DiagnosticModel.FromDict | server/models/diagnostic.py:35-48 | It succeeds exactly when the seven mandatory fields and the two optional ones can all be read. The mandatory keys are then copied. A missing or null `symptomes_optionnels` gives `[]`, and a present list is copied. A missing or null `conseils` gives `None`, and a present string is copied. |
| DiagnosticModel.FromDictOrdre | server/models/diagnostic.py:35-48 | The error is that of the first mandatory field that cannot be read, in the order id, nom, description, gravite, cout_min, cout_max, symptomes_requis. |
| DiagnosticModel.FromDictDefaults | server/tests/test_models.py:63-73 | A record with only the seven mandatory keys is read with no optional symptoms and no advice. |
| DiagnosticModel.FromDictToDict | server/models/diagnostic.py:22-48 | `to_dict`, with the two costs put back, reads back as the same diagnostic. |
| Vectorisation.SansDoublons | server/services/vectorisation.py:94-96 | `set(...)` of an id list: no repetition, same members as the list. |
| Vectorisation.ScoreCompletForme | server/services/vectorisation.py:106-125 | On a complete match the score is `min(base * poids_presents / poids_total, 1.0)`, or `min(base, 1.0)` when the total weight is not positive. `poids_total` is the weight of the set of required and optional ids. `poids_presents` is the weight of the present required ids together with the present optional ids. |
| Vectorisation.PoidsEnsembleRetrait | server/services/vectorisation.py:116-117 | The weight of a set is any one element's weight plus the weight of the rest, so the order of Python's set iteration does not matter. |
| Vectorisation.SommeEnsemble | server/services/vectorisation.py:116-117 | Summing the weights over a list without repetitions gives the weight of the set of its elements. |
| Vectorisation.SommeOrdre | server/services/vectorisation.py:116-117 | Two lists without repetitions and with the same elements have the same total weight. |
| Vectorisation.Base | server/services/vectorisation.py:106-113 | With optional symptoms, the base is `0.8 + (present optional / all optional) * 0.2`, counted on sets. Without them it is 0.8. It lies in [0.8, 1.0], and it is 1.0 when every optional symptom is present. |
| Vectorisation.CompletSiTousPresents | server/services/vectorisation.py:94-102 | Working on sets, the present required ids number fewer than the required set exactly when some required id is missing. |
| Vectorisation.ScoreIncomplet | server/services/vectorisation.py:101-104 | When a required id is missing, the score is half the share of distinct required ids present, and lies in [0, 0.5). Such a case needs a non-empty required set, so there is no division by zero. |
| Vectorisation.ScoreNul | server/services/vectorisation.py:101-104 | No required id present gives score 0. |
| Vectorisation.ScoreComplet | server/services/vectorisation.py:106-125 | On a complete match with non-negative weights, the score lies between 0 and the base. It equals the base when the total weight is 0 or every weighted id is present. |
| Vectorisation.ScoreBornes | server/services/vectorisation.py:116-125 | With weights in [0, 1], where an absent id weighs 1.0, every rule scores in [0, 1]. |
| Vectorisation.ScoreRequisSeuls | server/services/vectorisation.py:106-125 | All required ids present and no optional ids gives exactly 0.8. |
| Vectorisation.DemiCorrespondance | server/services/vectorisation.py:102-104 | One of two required ids present gives 0.25. |
| Vectorisation.CompleterPeutBaisser | server/services/vectorisation.py:102-125 | Adding the last missing required symptom can lower the score: a half match scores 0.25, the complete one 0.8 × 0.2/1.2. |
| Vectorisation.IndexerEffet | server/services/vectorisation.py:27-31 | After indexing, each listed id maps to the encoding of the name of its last listing. The keys are the old keys plus the listed ids, and other entries are untouched. |
| Vectorisation.OrdonnerEffet | server/services/vectorisation.py:30-31 | The dict's key order: the old keys first, unchanged, then each new id once. |
| Vectorisation.OrdonnerConcat | server/services/vectorisation.py:30-31 | Indexing `a + b` orders the keys as indexing `a` and then `b`, so new ids are appended in order of first listing. |
| Vectorisation.OrdonnerUn | server/services/vectorisation.py:30-31 | Assigning one id keeps an existing key in its place and appends a new key. |
| Vectorisation.Similarites | server/services/vectorisation.py:59-67 | The entries kept by the search loop: ids of the scanned list, each with its cosine similarity, which is at least `seuil`. |
| Vectorisation.SimilaritesConcat | server/services/vectorisation.py:59-67 | The scan goes id by id: scanning `a + b` gives the pairs of `a` followed by those of `b`. With the contract of `Similarites`, which fixes the result on one id, the qualifying ids keep the insertion order of the map. |
| Vectorisation.SimilaritesComplete | server/services/vectorisation.py:59-67 | Every stored id whose similarity reaches the threshold is kept. |
| Vectorisation.SimilaritesDistinct | server/services/vectorisation.py:59-67 | No id is kept twice. |
| Vectorisation.Classement | server/services/vectorisation.py:69-72 | Sorting and cutting the qualifying entries gives: at most `top_k` entries, every score at least `seuil`, keys in the map, non-increasing scores, distinct keys. |
| Vectorisation.VectorisationService.constructor | server/services/vectorisation.py:11-16 | A new service has the given model and an empty vector map. |
| Vectorisation.VectorisationService.VectoriserSymptomes | server/services/vectorisation.py:18-33 | The new vector map and key order are the indexing of the old ones by the listed symptoms. The map is not cleared. |
| Vectorisation.VectorisationService.TrouverSymptomesSimilaires | server/services/vectorisation.py:35-72 | Blank text gives `[]`. Otherwise the result is the first `top_k` qualifying entries, best first, with equal scores in map order. It has at most `top_k` entries, scores at least `seuil`, distinct stored ids and non-increasing scores. |
| Vectorisation.VectorisationService.Balayer | server/services/vectorisation.py:59-67 | The loop over the stored ids computes `Similarites` over the dict's key order. |
| Moteur.LireTous | server/services/moteur_diagnostic.py:24-25 | Reading records one by one. The load succeeds exactly when every record reads, and then holds one value per record, each the reading of its record. |
| Moteur.LireTousErreur | server/services/moteur_diagnostic.py:24-30 | The first record that fails to read makes the whole load fail with that record's error. |
| Moteur.CataloguerParId | server/services/moteur_diagnostic.py:24-26 | The catalog keys each symptom under its own id. Its keys are the old ones plus the loaded ids. |
| Moteur.CataloguerDernier | server/services/moteur_diagnostic.py:26 | A later record with the same id replaces the earlier one. |
| Moteur.CataloguerAutres | server/services/moteur_diagnostic.py:26 | Ids not loaded keep their previous record. |
| Moteur.Valides | server/services/moteur_diagnostic.py:92 | Only catalog ids are kept. The result has the same set as the input's catalog ids, and is empty exactly when no input id is in the catalog. |
| Moteur.ValidesConcat | server/services/moteur_diagnostic.py:92 | The filter goes id by id: the result for `a + b` is the result for `a` followed by the one for `b`. With the contract of `Valides`, which fixes the result on one id, the catalog ids are kept in input order, repetitions included. |
| Moteur.Noms | server/services/moteur_diagnostic.py:146 | The names of the given ids, in order. |
| Moteur.PoidsCatalogue | server/services/moteur_diagnostic.py:101 | The weight map has the catalog's ids and their `poids`. |
| Moteur.Candidats | server/services/moteur_diagnostic.py:103-115 | Every candidate carries its rule's score, which is above 0. There are no candidates exactly when every rule scores at most 0. |
| Moteur.CandidatsConcat | server/services/moteur_diagnostic.py:103-115 | The scoring goes rule by rule: the candidates of `a + b` are those of `a` followed by those of `b`. |
| Moteur.Positions | server/services/moteur_diagnostic.py:103-115 | The positions of the rules scoring above 0 are increasing positions of the catalog. |
| Moteur.PositionsCompletes | server/services/moteur_diagnostic.py:111 | A position is listed exactly when its rule scores above 0. |
| Moteur.CandidatsPositions | server/services/moteur_diagnostic.py:103-115 | The i-th candidate is the rule at the i-th listed position, with its score: the candidates are the rules scoring above 0, in load order. |
| Moteur.CandidatsComplets | server/services/moteur_diagnostic.py:111-115 | Every rule scoring above 0 is a candidate. |
| Moteur.MeilleurMaximal | server/services/moteur_diagnostic.py:118-126 | The chosen rule is the catalog rule `diagnostics[k]` with its own score. That score is above 0, no rule scores higher, and every rule loaded before position `k` scores strictly lower: the earliest-loaded rule among the best wins. |
| Moteur.ScoreChoisiBorne | server/models/symptome.py:12 | With every stored `poids` in its documented range 0.0 to 1.0, the weight map is valid for the scorer and the answered score lies in [0, 1]. |
| Moteur.Confiance | server/services/moteur_diagnostic.py:129-134 | 'Haute' iff score ≥ high threshold. 'Moyenne' iff high > score ≥ medium. 'Faible' iff score is below both. |
| Moteur.ConfianceBornes | server/config.py:17-18 | With thresholds 0.85 and 0.60: 0.85 gives 'Haute'; 0.8499, 0.8 and 0.60 give 'Moyenne'; 0.5999 and 0.25 give 'Faible'. |
| Moteur.DiagnosticIncertain | server/services/moteur_diagnostic.py:151-165 | The uncertain record is 'Diagnostic incertain', gravite 'Inconnu', cost 'À déterminer', confiance 'Très faible', score 0.0, with the given names. |
| Moteur.Reponse | server/services/moteur_diagnostic.py:137-147 | The success record copies the winner's nom, description, gravite and conseils, and the `cout_estimatif` of its `to_dict`. It carries the confidence of the unrounded score and the given names. |
| Moteur.Trouves | server/services/moteur_diagnostic.py:65-70 | Only search hits whose id is in the catalog are kept, each with the stored symptom and the hit's score. |
| Moteur.TrouvesComplets | server/services/moteur_diagnostic.py:66-70 | Every search hit whose id is in the catalog is kept, with its stored symptom and its score. |
| Moteur.TrouvesConcat | server/services/moteur_diagnostic.py:65-70 | The lookup goes hit by hit: the hits of `a + b` are those of `a` followed by those of `b`, so the search order is kept. |
| Moteur.TrouvesOrdonnes | server/services/moteur_diagnostic.py:65-72 | Filtering the hits keeps them best first. |
| Moteur.MoteurDiagnostic.OrdreCatalogue | server/services/moteur_diagnostic.py:13 | The key sequence lists exactly the catalog's ids. |
| Moteur.MoteurDiagnostic.constructor | server/services/moteur_diagnostic.py:11-15 | The engine starts with an empty catalog, no rules and a fresh vectorisation service. |
| Moteur.MoteurDiagnostic.Stocker | server/services/moteur_diagnostic.py:26 | `self.symptomes[s.id] = s`: a new id goes last in key order, an existing id keeps its place. |
| Moteur.MoteurDiagnostic.ChargerSymptomes | server/services/moteur_diagnostic.py:21-30 | Symptom loading: the catalog and key order become the cataloguing of the records read, or the first read error is returned. |
| Moteur.MoteurDiagnostic.ChargerRegles | server/services/moteur_diagnostic.py:33-42 | Rule loading: the rules read are appended in record order, or the first read error is returned. |
| Moteur.MoteurDiagnostic.ChargerDonnees | server/services/moteur_diagnostic.py:18-46 | `_charger_donnees`: symptoms, then rules, then the vectorisation of the stored symptoms in dict order. The outcome is the first read error, if any. |
| Moteur.MoteurDiagnostic.GetSymptomesDisponibles | server/services/moteur_diagnostic.py:48-50 | One dict per stored symptom, in dict order. Each reads back, through `from_dict`, as the stored symptom. |
| Moteur.MoteurDiagnostic.RechercherSymptomes | server/services/moteur_diagnostic.py:52-72 | Search with threshold 0.5, keeping only catalog ids in search order. Blank text gives `[]`. Otherwise there are at most `top_k` stored symptoms, each scoring at least 0.5, best first. |
| Moteur.MoteurDiagnostic.Retrouver | server/services/moteur_diagnostic.py:65-70 | The loop over the search hits computes `Trouves`: the hits whose id is in the catalog, in order, each with its stored symptom. |
| Moteur.MoteurDiagnostic.Evaluer | server/services/moteur_diagnostic.py:100-115 | The loop over the rules computes `Candidats`: each rule scoring above 0, in rule order, with its score. |
| Moteur.MoteurDiagnostic.Diagnostiquer | server/services/moteur_diagnostic.py:74-149 | An empty list gives 'Aucun symptôme fourni'. No catalog id gives 'Aucun symptôme valide'. Otherwise the result is the uncertain record when no rule scores above 0, and else the success record of the first-ranked candidate, with the valid ids' names. |
| AnalyseRegles.EnregistrementsFixes | server/moteur_diagnostic.py:29-52 | The configuration-error record and the uncertain record share the display keys and the gravite 'Inconnue'. Only the first has an `erreur` key, only the second a `detail` key. |
| AnalyseRegles.SansRequis | server/moteur_diagnostic.py:42-43 | The copy without `symptomes_requis`: every other key is kept with its value. |
| AnalyseRegles.PremierIndex | server/moteur_diagnostic.py:37-44 | When rule `k` is the first whose required set is a subset of the user's, the result is rule `k` without its required list. |
| AnalyseRegles.PremierAucune | server/moteur_diagnostic.py:46-52 | When no rule matches, the result is the uncertain record. |
| AnalyseRegles.PremierErreur | server/moteur_diagnostic.py:39 | A rule without a readable `symptomes_requis`, reached before any match, makes the call fail. |
| AnalyseRegles.RequisVideCorrespond | server/moteur_diagnostic.py:39 | A rule with an empty required list matches any input, the empty one included. The result is that rule or an earlier one. |
| AnalyseRegles.PlusPetit | server/moteur_diagnostic.py:37-39 | Given a matching rule, there is a first matching rule at or before it. |
| AnalyseRegles.MemeEnsemble | server/moteur_diagnostic.py:27 | The result depends only on the set of user symptoms, not on their order or repetitions. |
| AnalyseRegles.AnalyserSymptomes | server/moteur_diagnostic.py:21-52 | An empty rule list gives the configuration-error record. Otherwise the result is the first matching rule without its required list, or the uncertain record when no rule matches. |
| Validation.Nettoyer | server/utils/validation.py:34 | The cleaned list is no longer than the input, and each entry is non-empty and trimmed. |
| Validation.NettoyerConcat | server/utils/validation.py:34 | Cleaning goes entry by entry: the result for `a + b` is the result for `a` followed by the one for `b`. |
| Validation.NettoyerUn | server/utils/validation.py:34 | One entry is kept, stripped, exactly when it is not blank. With `NettoyerConcat`, the cleaned list is the stripped non-blank entries in input order. |
| Validation.NettoyerVide | server/utils/validation.py:34-37 | The cleaned list is empty exactly when every entry is blank. |
| Validation.NettoyerPropre | server/utils/validation.py:34 | Cleaning an already clean list changes nothing. |
| Validation.ValiderRequeteDiagnostic | server/utils/validation.py:5-39 | Checks run in the order: object, list, minimum, maximum, all strings, not all blank. The first failing check gives its message, and the bounds apply to the raw list. Success gives the cleaned list, of length 1 to MAX, with clean entries. |
| Validation.SansSymptomes | server/utils/validation.py:18-24 | A body without `symptomes` fails the minimum check. |
| Validation.MinimumConfigure | server/config.py:13-14 | With the configured bounds, an empty body gets 'Minimum 1 symptôme requis'. |
| Validation.RequeteDiagnosticIdempotente | server/utils/validation.py:34-39 | With a minimum of at most 1 (the configured value), validating a successful output again returns it unchanged. With a larger minimum, cleaning can shrink the list below it. |
| Validation.ValiderRecherche | server/utils/validation.py:41-70 | The checks are: object, then string. After `strip()`: empty, shorter than 3, longer than 200. Success gives the stripped text, trimmed, of length 3 to 200. |
| Validation.RechercheIdempotente | server/utils/validation.py:59-70 | Validating the returned text again returns it unchanged. |
| AssistantIA.Espaces | server/assistant_ia.py:82 | The run of whitespace that `\s*` takes first. |
| AssistantIA.Depart | server/assistant_ia.py:82-85 | The backtracking of `\s*`: the longest whitespace prefix after which `.` still matches, or none. |
| AssistantIA.FinDeLigne | server/assistant_ia.py:82-84 | Where `(.+)` stops without DOTALL: the next line feed, or the end of the text. |
| AssistantIA.Capture | server/assistant_ia.py:82-85 | Group 1 has at least one character, and it exists exactly when `\s*` can leave a position where `.` matches. Without DOTALL it holds no line feed. With DOTALL it runs to the end of the text. |
| AssistantIA.CaptureJusquAuBout | server/assistant_ia.py:82-85 | Group 1 meets `GroupeA`. Its start is in the whitespace run after the marker, and no later point of the run can start it, since greedy `\s*` gives back only what `.` needs. It is non-empty and, without DOTALL, holds no line feed. Greedy `(.+)` ends it at the end of the text or, without DOTALL, at a line feed. When `Capture` fails, no such group exists. |
| AssistantIA.GroupeUnique | server/assistant_ia.py:82-85 | At most one start and one group meet that description, so group 1's text is determined. |
| AssistantIA.Chercher | server/assistant_ia.py:82-85 | `re.search` returns the leftmost position where the marker, in any ASCII case, is followed by a successful capture. It finds nothing only when no position succeeds. |
| AssistantIA.Champ | server/assistant_ia.py:82-92 | A field is present exactly when its search succeeds, and it is then trimmed. Without DOTALL (the diagnostic, gravite and cost fields) it holds no line feed. |
| AssistantIA.ChampTexte | server/assistant_ia.py:82-92 | A field is `group(1).strip()`, where group 1 is the group described by `GroupeA` after the leftmost match of the marker. |
| AssistantIA.ParserReponseIA | server/assistant_ia.py:76-97 | A record exactly when all four searches succeed, each searched independently from the start. Its four fields are the stripped captures, each trimmed. |
| AssistantIA.ParserMarqueurs | server/assistant_ia.py:87 | A parsed reply contains all four markers, case-insensitively. |
| AssistantIA.Introuvable | server/assistant_ia.py:87-94 | A marker that does not occur makes its search fail, and so the parse. |
| AssistantIA.GenererDiagnosticParDefaut | server/assistant_ia.py:99-108 | The fixed diagnostic, gravite and cost. The explanation contains the `', '`-joined symptoms and each symptom. |
| AssistantIA.GenererExplicationSimulee | server/assistant_ia.py:161-177 | A known diagnostic name gives its table text. Any other name gives a text containing the name and the joined symptoms. |
| AssistantIA.TroisExplications | server/assistant_ia.py:166-170 | The table covers exactly the three named diagnostics. |

## Left out

- Reading `regles.json`, `symptomes.json` and the rule file of `charger_regles` (file and JSON I/O): records are passed in already decoded.
- The sentence-embedding model and `cosine_similarity` (numpy, sklearn, sentence-transformers): they are the functions `encode` and `cosinus` given to the service. Batch encoding is assumed to equal encoding each name alone.
- Floating point: scores and weights are exact reals, so Python rounding error is not modelled.
- Moteur.MoteurDiagnostic.RechercherSymptomes: the score is not rounded with `round(score, 3)`, and the result is a pair (symptom, score) rather than the symptom dict with a `score_similarite` key.
- Moteur.MoteurDiagnostic.Diagnostiquer: the `score` field is the exact score, not `round(score, 2)`. Confidence is classified on the exact score, as in the source.
- Moteur.MoteurDiagnostic.ChargerDonnees: the state left after a failed load is only known to be consistent. In the source the exception escapes `__init__`, so the engine is never used. The engine is built empty and then loaded; `__init__` does both.
- Moteur.MoteurDiagnostic.constructor: `__init__` also loads the data; here loading is the separate `ChargerDonnees`.
- SymptomeModel.FromDict: a present field of the wrong JSON type is an `Err(WrongType)`. Python would build the dataclass with that value.
- DiagnosticModel.FromDict: as for symptoms, a wrongly typed field is an error rather than a stored value.
- AnalyseRegles.Requis: a `symptomes_requis` that is not a list of strings is an error. In Python, `set()` of a string would compare its characters.
- AssistantIA.Marqueur: only ASCII case is ignored. The non-ASCII case partners Python's `re.IGNORECASE` also accepts (`ſ` for `s`, `ı` for `i`, `K` for `k`) are not modelled.
- AssistantIA.ParserReponseIA: the `except` branch (a non-string reply) is not modelled, because the input is a string.
- SymptomeModel.Hash: Python's string hash is salted per process. It is modelled by a fixed function of the id; only its agreement with `__eq__` is claimed.
- The calls to the Gemini service in `generer_explication` and `generer_diagnostic_ia`, and `server/services/assistant_ia.py`, are external network calls and are not part of this model.
- HTTP routing (`server/api.py`), the client code, logging and the tests are not part of this model.
- The check that every rule's symptom ids exist in the catalog exists only in the tests. It is not engine behaviour and is not modelled.

## Where the tests and the code differ

- **Unknown ids.** `server/tests/test_integration.py:182-183` calls `moteur.diagnostiquer(['symptome_inexistant'])` and asserts `succes == True`; its comment says the uncertain record comes back. The code at `server/services/moteur_diagnostic.py:92-97` drops unknown ids and, when none is left, returns the failure 'Aucun symptôme valide'. The model follows the code (`Moteur.MoteurDiagnostic.Diagnostiquer`).
- **Duplicate ids.** `server/tests/test_chargement_donnees.py:43` checks that the data file's symptom ids are unique. The loader itself does not check: a later record with the same id replaces the earlier one (`Moteur.CataloguerDernier`).

## Notes on the code

- **The score is not monotone in the required symptoms.** With weights, completing a match can lower the score: `Vectorisation.CompleterPeutBaisser` shows a half match scoring 0.25 and the completed match scoring 0.8 × 0.2/1.2 ≈ 0.133.
- **Equal search scores keep insertion order.** The sort at `server/services/vectorisation.py:70` is stable, so ties stay in the vector map's insertion order (`Ranking.SortDescStable` with `Vectorisation.SimilaritesConcat`).
- **Indexing again does not clear the map.** `vectoriser_symptomes` overwrites the listed ids and keeps the others (`Vectorisation.IndexerEffet`).
