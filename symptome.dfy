/** The `Symptome` dataclass: an observable sign, identified by its id alone. */
module SymptomeModel {
  import opened Wrappers
  import opened Json

  datatype Symptome = Symptome(
    id: string,
    nom: string,
    description: Option<string>,
    categorie: Option<string>,
    poids: real)

  /**
   * The documented range of `poids` (0.0 to 1.0). The constructor does not
   * enforce it; the scorer's bounds assume it.
   */
  predicate PoidsValide(s: Symptome) {
    0.0 <= s.poids <= 1.0
  }

  /** `__eq__`: two symptoms are equal when their ids are, whatever their other fields. */
  predicate Egal(a: Symptome, b: Symptome) {
    a.id == b.id
  }

  /**
   * `__hash__`, `hash(self.id)`. Python's string hash is salted per process, so
   * only its dependence on the id is modelled: a polynomial hash of the id.
   */
  function HashId(id: string): int {
    if id == [] then 0 else HashId(id[..|id| - 1]) * 31 + (id[|id| - 1] as int)
  }

  function Hash(s: Symptome): int {
    HashId(s.id)
  }

  /** Equality is an equivalence, and equal symptoms hash alike (the dict/set contract). */
  lemma EgalCoherent(a: Symptome, b: Symptome, c: Symptome)
    ensures Egal(a, a)
    ensures Egal(a, b) ==> Egal(b, a)
    ensures Egal(a, b) && Egal(b, c) ==> Egal(a, c)
    ensures Egal(a, b) ==> Hash(a) == Hash(b)
    ensures Egal(a, b) <==> a.id == b.id
  {
  }

  /** `to_dict`: exactly the five fields, `None` written as `null`. */
  function ToDict(s: Symptome): (d: Dict)
    ensures d.Keys == {"id", "nom", "description", "categorie", "poids"}
    ensures d["id"] == Str(s.id) && d["nom"] == Str(s.nom)
    ensures d["description"] == OptStr(s.description)
    ensures d["categorie"] == OptStr(s.categorie)
    ensures d["poids"] == Real(s.poids)
  {
    map["id" := Str(s.id), "nom" := Str(s.nom), "description" := OptStr(s.description),
        "categorie" := OptStr(s.categorie), "poids" := Real(s.poids)]
  }

  /**
   * `from_dict`: `id` and `nom` are required (checked in that order), the other
   * fields default to `None`, `None` and `1.0`.
   */
  function FromDict(d: Dict): (r: Result<Symptome, FieldError>)
    ensures "id" !in d ==> r == Err(MissingKey("id"))
    ensures "id" in d && d["id"].Str? && "nom" !in d ==> r == Err(MissingKey("nom"))
    ensures r.Ok? <==>
      StrField(d, "id").Ok? && StrField(d, "nom").Ok? && OptStrField(d, "description").Ok?
      && OptStrField(d, "categorie").Ok? && RealField(d, "poids", 1.0).Ok?
    ensures r.Ok? ==> d["id"] == Str(r.value.id) && d["nom"] == Str(r.value.nom)
    ensures r.Ok? && "description" !in d ==> r.value.description == None
    ensures r.Ok? && "categorie" !in d ==> r.value.categorie == None
    ensures r.Ok? && "poids" !in d ==> r.value.poids == 1.0
    ensures r.Ok? && "description" in d ==> d["description"] == OptStr(r.value.description)
    ensures r.Ok? && "categorie" in d ==> d["categorie"] == OptStr(r.value.categorie)
    ensures r.Ok? && "poids" in d && d["poids"].Real? ==> r.value.poids == d["poids"].r
    ensures r.Ok? && "poids" in d && d["poids"].Int? ==> r.value.poids == d["poids"].i as real
  {
    match StrField(d, "id")
    case Err(e) => Err(e)
    case Ok(id) =>
      match StrField(d, "nom")
      case Err(e) => Err(e)
      case Ok(nom) =>
        match OptStrField(d, "description")
        case Err(e) => Err(e)
        case Ok(description) =>
          match OptStrField(d, "categorie")
          case Err(e) => Err(e)
          case Ok(categorie) =>
            match RealField(d, "poids", 1.0)
            case Err(e) => Err(e)
            case Ok(poids) => Ok(Symptome(id, nom, description, categorie, poids))
  }

  /** `from_dict(to_dict(s))` gives back all five fields of `s`. */
  lemma FromDictToDict(s: Symptome)
    ensures FromDict(ToDict(s)) == Ok(s)
  {
    var d := ToDict(s);
    assert OptStrField(d, "description") == Ok(s.description);
    assert OptStrField(d, "categorie") == Ok(s.categorie);
  }

  /** A record with only `id` and `nom` gets the dataclass defaults. */
  lemma FromDictDefaults(id: string, nom: string)
    ensures FromDict(map["id" := Str(id), "nom" := Str(nom)]) == Ok(Symptome(id, nom, None, None, 1.0))
  {
  }
}
