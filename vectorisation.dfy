/**
 * The vectorisation service: the embedding index over symptom names, the
 * similarity search on free text and the rule scorer.
 *
 * The sentence-embedding model and cosine similarity are not modelled: the
 * service receives them as two functions, `encode` (text to vector) and
 * `cosinus` (the similarity of two vectors), fixed when it is built.
 */
module Vectorisation {
  import opened Texte
  import opened Ranking
  import SymptomeModel

  type Vecteur = seq<real>

  // ---------------------------------------------------------------------------
  // Rule scorer (`calculer_score_regle`)
  // ---------------------------------------------------------------------------

  /** `set(ids)`. */
  function AsSet(ids: seq<string>): set<string> {
    set x | x in ids
  }

  /** `poids_symptomes.get(id, 1.0)`. */
  function PoidsDe(poids: map<string, real>, id: string): real {
    if id in poids then poids[id] else 1.0
  }

  /** Every weight of the map lies in the documented range 0.0 to 1.0. */
  predicate PoidsValides(poids: map<string, real>) {
    forall id :: id in poids ==> 0.0 <= poids[id] <= 1.0
  }

  predicate Distincts(ids: seq<string>) {
    forall i, j :: 0 <= i < j < |ids| ==> ids[i] != ids[j]
  }

  lemma AsSetSnoc(ids: seq<string>, x: string)
    ensures AsSet(ids + [x]) == AsSet(ids) + {x}
    ensures ids != [] ==> AsSet(ids) == AsSet(ids[..|ids| - 1]) + {ids[|ids| - 1]}
  {
    if ids != [] {
      assert ids == ids[..|ids| - 1] + [ids[|ids| - 1]];
    }
  }

  /** The ids of `ids` without repetitions, first occurrences kept: the elements of `set(ids)`. */
  function SansDoublons(ids: seq<string>): (r: seq<string>)
    ensures Distincts(r) && AsSet(r) == AsSet(ids)
  {
    if ids == [] then []
    else
      var r := SansDoublons(ids[..|ids| - 1]);
      var x := ids[|ids| - 1];
      AsSetSnoc(ids[..|ids| - 1], x);
      AsSetSnoc(r, x);
      if x in r then r else r + [x]
  }

  /** The ids of `ids` that belong to `s`, in order. */
  function Garder(ids: seq<string>, s: set<string>): (r: seq<string>)
    ensures AsSet(r) == AsSet(ids) * s
    ensures Distincts(ids) ==> Distincts(r)
  {
    if ids == [] then []
    else
      var r := Garder(ids[..|ids| - 1], s);
      var x := ids[|ids| - 1];
      AsSetSnoc(ids[..|ids| - 1], x);
      AsSetSnoc(r, x);
      assert Distincts(ids) ==> x !in AsSet(ids[..|ids| - 1]);
      if x in s then r + [x] else r
  }

  /**
   * `sum(poids.get(s, 1.0) for s in ...)` over a list without repetitions,
   * i.e. over the set of its elements.
   */
  function Somme(ids: seq<string>, poids: map<string, real>): real {
    if ids == [] then 0.0 else Somme(ids[..|ids| - 1], poids) + PoidsDe(poids, ids[|ids| - 1])
  }

  /** `sum(poids.get(s, 1.0) for s in ens)` over a set, taken in no particular order. */
  ghost function PoidsEnsemble(ens: set<string>, poids: map<string, real>): real
    decreases |ens|
  {
    if ens == {} then 0.0
    else
      var x :| x in ens;
      PoidsDe(poids, x) + PoidsEnsemble(ens - {x}, poids)
  }

  /** Any element can be taken out first: the weight of a set does not depend on the order of the sum. */
  lemma {:induction false} PoidsEnsembleRetrait(ens: set<string>, x: string, poids: map<string, real>)
    requires x in ens
    ensures PoidsEnsemble(ens, poids) == PoidsDe(poids, x) + PoidsEnsemble(ens - {x}, poids)
    decreases |ens|
  {
    var y :| y in ens && PoidsEnsemble(ens, poids) == PoidsDe(poids, y) + PoidsEnsemble(ens - {y}, poids);
    if y != x {
      PoidsEnsembleRetrait(ens - {y}, x, poids);
      PoidsEnsembleRetrait(ens - {x}, y, poids);
      assert ens - {y} - {x} == ens - {x} - {y};
    }
  }

  /** Over a list without repetitions, `Somme` is the weight of the set of its elements. */
  lemma {:induction false} SommeEnsemble(ids: seq<string>, poids: map<string, real>)
    requires Distincts(ids)
    ensures Somme(ids, poids) == PoidsEnsemble(AsSet(ids), poids)
  {
    if ids != [] {
      var init, x := ids[..|ids| - 1], ids[|ids| - 1];
      assert Distincts(init);
      SommeEnsemble(init, poids);
      AsSetSnoc(ids, x);
      assert x !in AsSet(init);
      PoidsEnsembleRetrait(AsSet(ids), x, poids);
      assert AsSet(ids) - {x} == AsSet(init);
    }
  }

  /** Two lists without repetitions and with the same elements have the same weight, whatever their order. */
  lemma SommeOrdre(a: seq<string>, b: seq<string>, poids: map<string, real>)
    requires Distincts(a) && Distincts(b) && AsSet(a) == AsSet(b)
    ensures Somme(a, poids) == Somme(b, poids)
  {
    SommeEnsemble(a, poids);
    SommeEnsemble(b, poids);
  }

  /** `score_base` on a complete match: 0.8 plus up to 0.2 for the optional symptoms present. */
  function Base(utilisateur: set<string>, optionnels: set<string>): (b: real)
    ensures 0.8 <= b <= 1.0
    ensures optionnels == {} ==> b == 0.8
    ensures optionnels != {} ==> b == 0.8 + (|utilisateur * optionnels| as real / |optionnels| as real) * 0.2
    ensures optionnels != {} && optionnels <= utilisateur ==> b == 1.0
  {
    if optionnels != {} then
      var presents := utilisateur * optionnels;
      assert |optionnels| > 0;
      assert |presents| <= |optionnels| by { SubsetCard(presents, optionnels); }
      assert optionnels <= utilisateur ==> presents == optionnels;
      var part := |presents| as real / |optionnels| as real;
      assert 0.0 <= part <= 1.0;
      0.8 + part * 0.2
    else 0.8
  }

  lemma SubsetCard(a: set<string>, b: set<string>)
    requires a <= b
    ensures |a| <= |b|
    ensures |a| == |b| ==> a == b
  {
    assert b == a + (b - a) && a !! (b - a);
    assert |b| == |a| + |b - a|;
    if |a| == |b| {
      assert b - a == {};
    }
  }

  /** The weighting step: the total weight of the rule's symptoms and of those present. */
  function PoidsTotal(requis: seq<string>, optionnels: seq<string>, poids: map<string, real>): real {
    Somme(SansDoublons(requis + optionnels), poids)
  }

  function PoidsPresents(utilisateur: set<string>, requis: seq<string>, optionnels: seq<string>,
                         poids: map<string, real>): real {
    Somme(Garder(SansDoublons(requis + optionnels), utilisateur), poids)
  }

  /** `calculer_score_regle`. */
  function ScoreRegle(utilisateur: seq<string>, requis: seq<string>, optionnels: seq<string>,
                      poids: map<string, real>): real
  {
    var u, r, o := AsSet(utilisateur), AsSet(requis), AsSet(optionnels);
    var requisPresents := u * r;
    if |requisPresents| < |r| then
      (|requisPresents| as real / |r| as real) * 0.5
    else
      Plafond(Pondere(Base(u, o), PoidsPresents(u, requis, optionnels, poids),
                      PoidsTotal(requis, optionnels, poids)))
  }

  /** `score_base * (poids_presents / poids_total)`, or `score_base` when the total is not positive. */
  function Pondere(base: real, present: real, total: real): real {
    if total > 0.0 then base * (present / total) else base
  }

  /** `min(score, 1.0)`. */
  function Plafond(score: real): real {
    if score <= 1.0 then score else 1.0
  }

  /** All the required symptoms are among the user's. */
  predicate RequisComplets(utilisateur: seq<string>, requis: seq<string>) {
    AsSet(requis) <= AsSet(utilisateur)
  }

  predicate PoidsPositifs(poids: map<string, real>) {
    forall id :: id in poids ==> poids[id] >= 0.0
  }

  /** With non-negative weights, the weight of a sub-list is between 0 and the whole. */
  lemma {:induction false} SommeGarder(ids: seq<string>, s: set<string>, poids: map<string, real>)
    requires PoidsPositifs(poids)
    ensures 0.0 <= Somme(Garder(ids, s), poids) <= Somme(ids, poids)
  {
    if ids != [] {
      SommeGarder(ids[..|ids| - 1], s, poids);
      var r := Garder(ids[..|ids| - 1], s);
      assert (r + [ids[|ids| - 1]])[..|r|] == r;
    }
  }

  lemma {:induction false} GarderTout(ids: seq<string>, s: set<string>)
    requires AsSet(ids) <= s
    ensures Garder(ids, s) == ids
  {
    if ids != [] {
      var init, x := ids[..|ids| - 1], ids[|ids| - 1];
      assert init + [x] == ids;
      AsSetSnoc(init, x);
      GarderTout(init, s);
      assert x in s;
    }
  }

  /** Without repetitions, the required symptoms present number `|R|` exactly when all are present. */
  lemma CompletSiTousPresents(utilisateur: seq<string>, requis: seq<string>)
    ensures |AsSet(utilisateur) * AsSet(requis)| <= |AsSet(requis)|
    ensures |AsSet(utilisateur) * AsSet(requis)| < |AsSet(requis)| <==> !RequisComplets(utilisateur, requis)
  {
    SubsetCard(AsSet(utilisateur) * AsSet(requis), AsSet(requis));
    if RequisComplets(utilisateur, requis) {
      assert AsSet(utilisateur) * AsSet(requis) == AsSet(requis);
    }
  }

  /**
   * A rule whose required symptoms are not all present scores the fraction of
   * them present, halved: always below 0.5. An empty required list never gets here.
   */
  lemma ScoreIncomplet(utilisateur: seq<string>, requis: seq<string>, optionnels: seq<string>,
                       poids: map<string, real>)
    requires !RequisComplets(utilisateur, requis)
    ensures requis != []
    ensures ScoreRegle(utilisateur, requis, optionnels, poids)
         == (|AsSet(utilisateur) * AsSet(requis)| as real / |AsSet(requis)| as real) * 0.5
    ensures 0.0 <= ScoreRegle(utilisateur, requis, optionnels, poids) < 0.5
  {
    CompletSiTousPresents(utilisateur, requis);
  }

  /** None of a non-empty required list present: the rule scores 0. */
  lemma ScoreNul(utilisateur: seq<string>, requis: seq<string>, optionnels: seq<string>,
                 poids: map<string, real>)
    requires requis != [] && AsSet(utilisateur) * AsSet(requis) == {}
    ensures ScoreRegle(utilisateur, requis, optionnels, poids) == 0.0
  {
    assert requis[0] in AsSet(requis);
  }

  /**
   * On a complete match the score is the base (in [0.8, 1.0]) scaled by the
   * share of the rule's weight that is present, capped at 1.0.
   */
  lemma ScoreComplet(utilisateur: seq<string>, requis: seq<string>, optionnels: seq<string>,
                     poids: map<string, real>)
    requires RequisComplets(utilisateur, requis)
    requires PoidsPositifs(poids)
    ensures 0.0 <= ScoreRegle(utilisateur, requis, optionnels, poids)
                <= Base(AsSet(utilisateur), AsSet(optionnels))
    ensures PoidsTotal(requis, optionnels, poids) <= 0.0
              || PoidsPresents(AsSet(utilisateur), requis, optionnels, poids)
                 == PoidsTotal(requis, optionnels, poids)
            ==> ScoreRegle(utilisateur, requis, optionnels, poids)
                == Base(AsSet(utilisateur), AsSet(optionnels))
  {
    var u := AsSet(utilisateur);
    CompletSiTousPresents(utilisateur, requis);
    SommeGarder(SansDoublons(requis + optionnels), u, poids);
    PondereBornes(Base(u, AsSet(optionnels)), PoidsPresents(u, requis, optionnels, poids),
                  PoidsTotal(requis, optionnels, poids));
  }

  /** Scaling a base of at most 1.0 by a share in [0, 1] and capping it stays between 0 and the base. */
  lemma PondereBornes(base: real, present: real, total: real)
    requires 0.0 <= base <= 1.0 && 0.0 <= present <= total
    ensures 0.0 <= Plafond(Pondere(base, present, total)) <= base
    ensures total <= 0.0 || present == total ==> Plafond(Pondere(base, present, total)) == base
  {
    if total > 0.0 {
      var x := base * (present / total);
      Proportion(base, present, total);
      assert Pondere(base, present, total) == x && 0.0 <= x <= base;
      assert Plafond(x) == x;
    } else {
      assert Pondere(base, present, total) == base;
      assert Plafond(base) == base;
    }
  }

  /**
   * On a complete match the score is `min(base * poids_presents / poids_total, 1.0)`,
   * both weights being sums over sets: the total over the rule's required and
   * optional symptoms, the present weight over those the user gave.
   */
  lemma ScoreCompletForme(utilisateur: seq<string>, requis: seq<string>, optionnels: seq<string>,
                          poids: map<string, real>)
    requires RequisComplets(utilisateur, requis)
    ensures var u, r, o := AsSet(utilisateur), AsSet(requis), AsSet(optionnels);
      ScoreRegle(utilisateur, requis, optionnels, poids)
      == Plafond(Pondere(Base(u, o), PoidsEnsemble(u * r + u * o, poids), PoidsEnsemble(r + o, poids)))
  {
    var u, r, o := AsSet(utilisateur), AsSet(requis), AsSet(optionnels);
    CompletSiTousPresents(utilisateur, requis);
    var tous := SansDoublons(requis + optionnels);
    assert AsSet(requis + optionnels) == r + o;
    SommeEnsemble(tous, poids);
    SommeEnsemble(Garder(tous, u), poids);
    assert AsSet(Garder(tous, u)) == u * r + u * o;
  }

  lemma Proportion(base: real, part: real, total: real)
    requires 0.0 <= base && 0.0 <= part <= total && total > 0.0
    ensures 0.0 <= base * (part / total) <= base
    ensures part == total ==> base * (part / total) == base
  {
    assert 0.0 <= part / total <= 1.0;
  }

  /** With weights in [0, 1] every rule scores between 0 and 1. */
  lemma ScoreBornes(utilisateur: seq<string>, requis: seq<string>, optionnels: seq<string>,
                    poids: map<string, real>)
    requires PoidsValides(poids)
    ensures 0.0 <= ScoreRegle(utilisateur, requis, optionnels, poids) <= 1.0
  {
    if RequisComplets(utilisateur, requis) {
      ScoreComplet(utilisateur, requis, optionnels, poids);
    } else {
      ScoreIncomplet(utilisateur, requis, optionnels, poids);
    }
  }

  /**
   * All required symptoms present and no optional ones: exactly 0.8, whatever
   * the weights, since the weight factor is then 1. This covers the rule with
   * no symptoms at all.
   */
  lemma ScoreRequisSeuls(utilisateur: seq<string>, requis: seq<string>, optionnels: seq<string>,
                         poids: map<string, real>)
    requires RequisComplets(utilisateur, requis) && optionnels == []
    ensures ScoreRegle(utilisateur, requis, optionnels, poids) == 0.8
  {
    var u := AsSet(utilisateur);
    assert requis + optionnels == requis;
    GarderTout(SansDoublons(requis), u);
    var total := PoidsTotal(requis, optionnels, poids);
    assert PoidsPresents(u, requis, optionnels, poids) == total;
    assert AsSet(optionnels) == {};
    assert Base(u, AsSet(optionnels)) == 0.8;
    assert Pondere(0.8, total, total) == 0.8;
    CompletSiTousPresents(utilisateur, requis);
  }

  /**
   * Completing the required symptoms can lower the score: the weighting step
   * applies only to complete matches, so a complete match with light required
   * symptoms and a heavy absent optional one scores below a half match.
   */
  lemma CompleterPeutBaisser(a: seq<string>, ab: seq<string>, c: seq<string>, poids: map<string, real>)
    requires a == ["a"] && ab == ["a", "b"] && c == ["c"]
    requires poids == map["a" := 0.1, "b" := 0.1, "c" := 1.0]
    ensures ScoreRegle(ab, ab, c, poids) < ScoreRegle(a, ab, c, poids)
  {
    DemiCorrespondance(a, ab, c, poids);
    CorrespondanceComplete(ab, c, poids);
  }

  lemma DemiCorrespondance(a: seq<string>, ab: seq<string>, c: seq<string>, poids: map<string, real>)
    requires a == ["a"] && ab == ["a", "b"]
    ensures ScoreRegle(a, ab, c, poids) == 0.25
  {
    assert AsSet(a) == {"a"};
    assert AsSet(ab) == {"a", "b"};
    assert AsSet(a) * AsSet(ab) == {"a"};
  }

  lemma CorrespondanceComplete(ab: seq<string>, c: seq<string>, poids: map<string, real>)
    requires ab == ["a", "b"] && c == ["c"]
    requires poids == map["a" := 0.1, "b" := 0.1, "c" := 1.0]
    ensures ScoreRegle(ab, ab, c, poids) == 0.8 * (0.2 / 1.2)
  {
    var u := AsSet(ab);
    assert u == {"a", "b"};
    assert AsSet(c) == {"c"};
    BaseExemple(u, AsSet(c));
    PoidsExemple(ab, c, poids);
    assert Plafond(Pondere(0.8, 0.2, 1.2)) == 0.8 * (0.2 / 1.2);
    CompletSiTousPresents(ab, ab);
  }

  lemma BaseExemple(u: set<string>, o: set<string>)
    requires u == {"a", "b"} && o == {"c"}
    ensures Base(u, o) == 0.8
  {
    assert u * o == {};
  }

  lemma PoidsExemple(ab: seq<string>, c: seq<string>, poids: map<string, real>)
    requires ab == ["a", "b"] && c == ["c"]
    requires poids == map["a" := 0.1, "b" := 0.1, "c" := 1.0]
    ensures PoidsTotal(ab, c, poids) == 1.2
    ensures PoidsPresents({"a", "b"}, ab, c, poids) == 0.2
  {
    var sd := ["a", "b", "c"];
    assert ["a", "b"] + ["c"] == sd;
    assert sd[..2] == ["a", "b"] && sd[..1] == ["a"] && sd[..0] == [];
    assert SansDoublons([]) == [];
    assert SansDoublons(["a"]) == ["a"];
    assert "b" !in ["a"];
    assert SansDoublons(["a", "b"]) == ["a", "b"];
    assert "c" !in ["a", "b"];
    assert SansDoublons(sd) == sd;
    assert Garder([], {"a", "b"}) == [];
    assert Garder(["a"], {"a", "b"}) == ["a"];
    assert Garder(["a", "b"], {"a", "b"}) == ["a", "b"];
    assert Garder(sd, {"a", "b"}) == ["a", "b"];
    assert Somme([], poids) == 0.0;
    assert Somme(["a"], poids) == 0.1;
    assert Somme(["a", "b"], poids) == 0.2;
    assert Somme(sd, poids) == 1.2;
  }

  // ---------------------------------------------------------------------------
  // Embedding index (`vectoriser_symptomes`) and search (`trouver_symptomes_similaires`)
  // ---------------------------------------------------------------------------

  /** The vector map after storing `encode(nom)` under each symptom's id, in list order. */
  function Indexer(m: map<string, Vecteur>, symptomes: seq<SymptomeModel.Symptome>,
                   encode: string -> Vecteur): map<string, Vecteur>
  {
    if symptomes == [] then m
    else
      var last := symptomes[|symptomes| - 1];
      Indexer(m, symptomes[..|symptomes| - 1], encode)[last.id := encode(last.nom)]
  }

  /** The key order of the dict after the same assignments: a new key goes last, an old one stays put. */
  function Ordonner(ordre: seq<string>, symptomes: seq<SymptomeModel.Symptome>): seq<string>
  {
    if symptomes == [] then ordre
    else
      var k := Ordonner(ordre, symptomes[..|symptomes| - 1]);
      var id := symptomes[|symptomes| - 1].id;
      if id in k then k else k + [id]
  }

  function Ids(symptomes: seq<SymptomeModel.Symptome>): set<string> {
    set i | 0 <= i < |symptomes| :: symptomes[i].id
  }

  lemma IdsSnoc(symptomes: seq<SymptomeModel.Symptome>)
    requires symptomes != []
    ensures Ids(symptomes) == Ids(symptomes[..|symptomes| - 1]) + {symptomes[|symptomes| - 1].id}
  {
    var init := symptomes[..|symptomes| - 1];
    forall k | k in Ids(symptomes) ensures k in Ids(init) + {symptomes[|symptomes| - 1].id} {
      var i :| 0 <= i < |symptomes| && symptomes[i].id == k;
      if i < |init| { assert init[i] == symptomes[i]; }
    }
    forall k | k in Ids(init) ensures k in Ids(symptomes) {
      var i :| 0 <= i < |init| && init[i].id == k;
      assert symptomes[i] == init[i];
    }
  }

  /**
   * Indexing adds exactly the listed ids, maps each to the encoding of the name
   * of its last listing, and leaves every other entry as it was.
   */
  lemma {:induction false} IndexerEffet(m: map<string, Vecteur>, symptomes: seq<SymptomeModel.Symptome>,
                                         encode: string -> Vecteur)
    ensures Indexer(m, symptomes, encode).Keys == m.Keys + Ids(symptomes)
    ensures forall k :: k in m && k !in Ids(symptomes) ==> Indexer(m, symptomes, encode)[k] == m[k]
    ensures forall i :: 0 <= i < |symptomes|
              && (forall j :: i < j < |symptomes| ==> symptomes[j].id != symptomes[i].id)
              ==> Indexer(m, symptomes, encode)[symptomes[i].id] == encode(symptomes[i].nom)
  {
    if symptomes != [] {
      var init := symptomes[..|symptomes| - 1];
      var last := symptomes[|symptomes| - 1];
      IndexerEffet(m, init, encode);
      IdsSnoc(symptomes);
      var mi := Indexer(m, init, encode);
      assert Indexer(m, symptomes, encode) == mi[last.id := encode(last.nom)];
      forall i | 0 <= i < |symptomes|
          && (forall j :: i < j < |symptomes| ==> symptomes[j].id != symptomes[i].id)
        ensures Indexer(m, symptomes, encode)[symptomes[i].id] == encode(symptomes[i].nom)
      {
        if i < |init| {
          assert symptomes[i] == init[i];
          assert forall j :: i < j < |init| ==> init[j] == symptomes[j];
        }
      }
    }
  }

  /** The key order stays a list of distinct keys, extended at the end only. */
  lemma {:induction false} OrdonnerEffet(ordre: seq<string>, symptomes: seq<SymptomeModel.Symptome>)
    requires Distincts(ordre)
    ensures Distincts(Ordonner(ordre, symptomes))
    ensures AsSet(Ordonner(ordre, symptomes)) == AsSet(ordre) + Ids(symptomes)
    ensures |ordre| <= |Ordonner(ordre, symptomes)| && Ordonner(ordre, symptomes)[..|ordre|] == ordre
  {
    if symptomes != [] {
      var init := symptomes[..|symptomes| - 1];
      var id := symptomes[|symptomes| - 1].id;
      OrdonnerEffet(ordre, init);
      var k := Ordonner(ordre, init);
      AsSetSnoc(k, id);
      IdsSnoc(symptomes);
      if id !in k {
        assert (k + [id])[..|ordre|] == k[..|ordre|];
      }
    }
  }

  /** Indexing a list in two parts orders the keys as indexing it at once: new ids go last in order of listing. */
  lemma {:induction false} OrdonnerConcat(ordre: seq<string>, a: seq<SymptomeModel.Symptome>,
                                          b: seq<SymptomeModel.Symptome>)
    ensures Ordonner(ordre, a + b) == Ordonner(Ordonner(ordre, a), b)
  {
    if b == [] {
      assert a + b == a;
    } else {
      var init := b[..|b| - 1];
      OrdonnerConcat(ordre, a, init);
      assert (a + b)[..|a + b| - 1] == a + init;
      assert (a + b)[|a + b| - 1] == b[|b| - 1];
    }
  }

  /** One symptom: an id already present keeps its place, a new one is appended. */
  lemma OrdonnerUn(ordre: seq<string>, s: SymptomeModel.Symptome)
    ensures Ordonner(ordre, [s]) == if s.id in ordre then ordre else ordre + [s.id]
  {
    assert [s][..0] == [];
  }

  /**
   * The `(id, score)` pairs of the ids, in order, whose similarity to the query
   * vector reaches the threshold.
   */
  function Similarites(ids: seq<string>, vecteurs: map<string, Vecteur>, requete: Vecteur, seuil: real,
                       cosinus: (Vecteur, Vecteur) -> real): (r: seq<(string, real)>)
    requires forall k :: 0 <= k < |ids| ==> ids[k] in vecteurs
    ensures forall i :: 0 <= i < |r| ==> r[i].0 in vecteurs && r[i].1 >= seuil
    ensures forall i :: 0 <= i < |r| ==> r[i].1 == cosinus(requete, vecteurs[r[i].0])
    ensures |r| <= |ids| && forall i :: 0 <= i < |r| ==> r[i].0 in ids
  {
    if ids == [] then []
    else
      var id := ids[|ids| - 1];
      var r := Similarites(ids[..|ids| - 1], vecteurs, requete, seuil, cosinus);
      assert forall x :: x in ids[..|ids| - 1] ==> x in ids;
      var score := cosinus(requete, vecteurs[id]);
      if score >= seuil then r + [(id, score)] else r
  }

  /**
   * The scan works id by id: the pairs for `a + b` are those for `a`, then
   * those for `b`. With the contract above, which fixes the result on one
   * id, this says the qualifying ids keep the dict's insertion order.
   */
  lemma {:induction false} SimilaritesConcat(a: seq<string>, b: seq<string>, vecteurs: map<string, Vecteur>,
                                             requete: Vecteur, seuil: real, cosinus: (Vecteur, Vecteur) -> real)
    requires forall k :: 0 <= k < |a| ==> a[k] in vecteurs
    requires forall k :: 0 <= k < |b| ==> b[k] in vecteurs
    ensures forall k :: 0 <= k < |a + b| ==> (a + b)[k] in vecteurs
    ensures Similarites(a + b, vecteurs, requete, seuil, cosinus)
         == Similarites(a, vecteurs, requete, seuil, cosinus) + Similarites(b, vecteurs, requete, seuil, cosinus)
  {
    if b == [] {
      assert a + b == a;
    } else {
      var init := b[..|b| - 1];
      SimilaritesConcat(a, init, vecteurs, requete, seuil, cosinus);
      assert (a + b)[..|a + b| - 1] == a + init;
      assert (a + b)[|a + b| - 1] == b[|b| - 1];
    }
  }

  lemma {:induction false} SimilaritesAvoid(ids: seq<string>, vecteurs: map<string, Vecteur>, requete: Vecteur,
                                            seuil: real, cosinus: (Vecteur, Vecteur) -> real, k: string)
    requires forall j :: 0 <= j < |ids| ==> ids[j] in vecteurs && ids[j] != k
    ensures forall i :: 0 <= i < |Similarites(ids, vecteurs, requete, seuil, cosinus)|
              ==> Similarites(ids, vecteurs, requete, seuil, cosinus)[i].0 != k
  {
    if ids != [] {
      SimilaritesAvoid(ids[..|ids| - 1], vecteurs, requete, seuil, cosinus, k);
    }
  }

  /** Over distinct ids, each id is reported at most once. */
  lemma {:induction false} SimilaritesDistinct(ids: seq<string>, vecteurs: map<string, Vecteur>, requete: Vecteur,
                                               seuil: real, cosinus: (Vecteur, Vecteur) -> real)
    requires forall j :: 0 <= j < |ids| ==> ids[j] in vecteurs
    requires Distincts(ids)
    ensures ClesDistinctes(Similarites(ids, vecteurs, requete, seuil, cosinus))
  {
    if ids != [] {
      var init := ids[..|ids| - 1];
      SimilaritesDistinct(init, vecteurs, requete, seuil, cosinus);
      SimilaritesAvoid(init, vecteurs, requete, seuil, cosinus, ids[|ids| - 1]);
    }
  }

  /** Every id whose similarity reaches the threshold is reported. */
  lemma {:induction false} SimilaritesComplete(ids: seq<string>, vecteurs: map<string, Vecteur>, requete: Vecteur,
                                               seuil: real, cosinus: (Vecteur, Vecteur) -> real, k: nat)
    requires forall j :: 0 <= j < |ids| ==> ids[j] in vecteurs
    requires k < |ids| && cosinus(requete, vecteurs[ids[k]]) >= seuil
    ensures (ids[k], cosinus(requete, vecteurs[ids[k]])) in Similarites(ids, vecteurs, requete, seuil, cosinus)
  {
    var init := ids[..|ids| - 1];
    if k < |init| {
      SimilaritesComplete(init, vecteurs, requete, seuil, cosinus, k);
      assert init[k] == ids[k];
    }
  }

  /** What the search promises of its result, given the qualifying entries. */
  lemma {:induction false} Classement(similarites: seq<(string, real)>, topK: int, cles: set<string>, seuil: real)
    requires forall i :: 0 <= i < |similarites| ==> similarites[i].0 in cles && similarites[i].1 >= seuil
    requires ClesDistinctes(similarites)
    ensures var r := Take(SortDesc(similarites), topK);
      && (topK >= 0 ==> |r| <= topK)
      && (forall i :: 0 <= i < |r| ==> r[i].1 >= seuil && r[i].0 in cles)
      && SortedDesc(r)
      && ClesDistinctes(r)
  {
    SortDescSorted(similarites);
    SortDescKeeps(similarites, cles, seuil);
    SortDescDistinct(similarites);
  }

  class VectorisationService {
    /** The sentence-embedding model, applied to one text. */
    const encode: string -> Vecteur
    /** Cosine similarity of two vectors. */
    const cosinus: (Vecteur, Vecteur) -> real
    /** `self.symptomes_vectors`: its keys in insertion order, and the map itself. */
    var ordre: seq<string>
    var vecteurs: map<string, Vecteur>

    ghost predicate Valid()
      reads this
    {
      Distincts(ordre) && AsSet(ordre) == vecteurs.Keys
    }

    lemma OrdreIndexe()
      requires Valid()
      ensures forall k :: 0 <= k < |ordre| ==> ordre[k] in vecteurs
    {
      forall k | 0 <= k < |ordre| ensures ordre[k] in vecteurs {
        assert ordre[k] in AsSet(ordre);
      }
    }

    /** `__init__`: the model is given, the vector map starts empty. */
    constructor (encode: string -> Vecteur, cosinus: (Vecteur, Vecteur) -> real)
      ensures Valid()
      ensures this.encode == encode && this.cosinus == cosinus
      ensures ordre == [] && vecteurs == map[]
    {
      this.encode := encode;
      this.cosinus := cosinus;
      ordre := [];
      vecteurs := map[];
    }

    /**
     * `vectoriser_symptomes`: stores the encoding of each name under its id.
     * The map is not cleared first: entries of other ids stay.
     */
    method VectoriserSymptomes(symptomes: seq<SymptomeModel.Symptome>)
      requires Valid()
      modifies this
      ensures Valid()
      ensures vecteurs == Indexer(old(vecteurs), symptomes, encode)
      ensures ordre == Ordonner(old(ordre), symptomes)
    {
      ghost var m0, o0 := vecteurs, ordre;
      var i := 0;
      while i < |symptomes|
        invariant 0 <= i <= |symptomes|
        invariant vecteurs == Indexer(m0, symptomes[..i], encode)
        invariant ordre == Ordonner(o0, symptomes[..i])
        invariant Valid()
      {
        var s := symptomes[i];
        assert symptomes[..i + 1][..i] == symptomes[..i];
        if s.id !in vecteurs {
          AsSetSnoc(ordre, s.id);
          ordre := ordre + [s.id];
        }
        vecteurs := vecteurs[s.id := encode(s.nom)];
        i := i + 1;
      }
      assert symptomes[..i] == symptomes;
    }

    /**
     * `trouver_symptomes_similaires`: blank text gives no result; otherwise the
     * ids whose similarity reaches `seuil`, best first (equal scores in map
     * order), cut with `[:top_k]`.
     */
    method TrouverSymptomesSimilaires(texte: string, topK: int, seuil: real)
      returns (r: seq<(string, real)>)
      requires Valid()
      ensures IsBlank(texte) ==> r == []
      ensures !IsBlank(texte)
          ==> r == Take(SortDesc(Similarites(ordre, vecteurs, encode(texte), seuil, cosinus)), topK)
      ensures topK >= 0 ==> |r| <= topK
      ensures forall i :: 0 <= i < |r| ==> r[i].1 >= seuil && r[i].0 in vecteurs
      ensures SortedDesc(r)
      ensures ClesDistinctes(r)
    {
      if Strip(texte) == [] {
        return [];
      }
      OrdreIndexe();
      var requete := encode(texte);
      var similarites := Balayer(requete, seuil);
      SimilaritesDistinct(ordre, vecteurs, requete, seuil, cosinus);
      Classement(similarites, topK, vecteurs.Keys, seuil);
      r := Take(SortDesc(similarites), topK);
    }

    /** The loop of `trouver_symptomes_similaires`: each stored id, in dict order, whose similarity reaches `seuil`. */
    method Balayer(requete: Vecteur, seuil: real) returns (similarites: seq<(string, real)>)
      requires Valid()
      ensures forall k :: 0 <= k < |ordre| ==> ordre[k] in vecteurs
      ensures similarites == Similarites(ordre, vecteurs, requete, seuil, cosinus)
    {
      OrdreIndexe();
      similarites := [];
      var i := 0;
      while i < |ordre|
        invariant 0 <= i <= |ordre|
        invariant similarites == Similarites(ordre[..i], vecteurs, requete, seuil, cosinus)
      {
        var id := ordre[i];
        var score := cosinus(requete, vecteurs[id]);
        assert ordre[..i + 1][..i] == ordre[..i];
        if score >= seuil {
          similarites := similarites + [(id, score)];
        }
        i := i + 1;
      }
      assert ordre[..i] == ordre;
    }
  }
}
