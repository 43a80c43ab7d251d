/** The `Diagnostic` dataclass: one rule of the catalog and its display form. */
module DiagnosticModel {
  import opened Wrappers
  import opened Json
  import opened Texte

  datatype Diagnostic = Diagnostic(
    id: string,
    nom: string,
    description: string,
    gravite: string,
    coutMin: int,
    coutMax: int,
    symptomesRequis: seq<string>,
    symptomesOptionnels: seq<string>,
    conseils: Option<string>)

  /**
   * The dataclass constructor followed by `__post_init__`: the field
   * `symptomes_optionnels` defaults to `None`, which `__post_init__` replaces
   * by an empty list before the object is handed out.
   */
  function NouveauDiagnostic(id: string, nom: string, description: string, gravite: string,
                             coutMin: int, coutMax: int, requis: seq<string>,
                             optionnels: Option<seq<string>>, conseils: Option<string>): (d: Diagnostic)
    ensures optionnels.None? ==> d.symptomesOptionnels == []
    ensures optionnels.Some? ==> d.symptomesOptionnels == optionnels.value
    ensures d.id == id && d.nom == nom && d.description == description && d.gravite == gravite
    ensures d.coutMin == coutMin && d.coutMax == coutMax
    ensures d.symptomesRequis == requis && d.conseils == conseils
  {
    var opt := if optionnels.None? then [] else optionnels.value;
    Diagnostic(id, nom, description, gravite, coutMin, coutMax, requis, opt, conseils)
  }

  /** Three decimal digits, zero-padded: one group of the thousands format. */
  function Pad3(k: nat): (r: string)
    requires k < 1000
    ensures |r| == 3 && AllDigits(r)
  {
    [DigitChar(k / 100), DigitChar(k / 10 % 10), DigitChar(k % 10)]
  }

  /** The digit groups of `n`, most significant first. */
  function Groups(n: nat): (gs: seq<string>)
    ensures |gs| >= 1
  {
    if n < 1000 then [Digits(n)] else Groups(n / 1000) + [Pad3(n % 1000)]
  }

  /** `f"{n:,}".replace(',', ' ')` for `n >= 0`: groups of three digits separated by a space. */
  function Grouped(n: nat): string {
    Join(" ", Groups(n))
  }

  /** `f"{i:,}".replace(',', ' ')` for any integer. */
  function FormatMilliers(i: int): string {
    if i < 0 then "-" + Grouped(-i) else Grouped(i)
  }

  /** The `cout_estimatif` field of `to_dict`. */
  function CoutEstimatif(coutMin: int, coutMax: int): string {
    FormatMilliers(coutMin) + "Ar - " + FormatMilliers(coutMax) + "Ar"
  }

  function Concat(gs: seq<string>): string {
    if gs == [] then [] else Concat(gs[..|gs| - 1]) + gs[|gs| - 1]
  }

  /** The text with every space removed. */
  function SansEspaces(s: string): string {
    if s == [] then [] else SansEspaces(s[..|s| - 1]) + (if s[|s| - 1] == ' ' then [] else [s[|s| - 1]])
  }

  lemma {:induction false} DigitsSplit(n: nat)
    requires n >= 1000
    ensures Digits(n) == Digits(n / 1000) + Pad3(n % 1000)
  {
    var c, r := n / 1000, n % 1000;
    var a, b := n / 10, n / 100;
    assert n == 1000 * c + r;
    assert a == 100 * c + r / 10;
    assert b == 10 * c + r / 100;
    assert a / 10 == b && b / 10 == c;
    assert n % 10 == r % 10;
    assert a % 10 == r / 10 % 10;
    assert b % 10 == r / 100;
    calc {
      Digits(n);
      Digits(a) + [DigitChar(n % 10)];
      Digits(b) + [DigitChar(a % 10)] + [DigitChar(n % 10)];
      Digits(c) + [DigitChar(b % 10)] + [DigitChar(a % 10)] + [DigitChar(n % 10)];
      Digits(c) + Pad3(r);
    }
  }

  /** A number below 1000 has one to three digits. */
  lemma DigitsCourts(n: nat)
    requires n < 1000
    ensures 1 <= |Digits(n)| <= 3
  {
    if n >= 100 {
      assert |Digits(n)| == |Digits(n / 10)| + 1;
      assert |Digits(n / 10)| == |Digits(n / 100)| + 1;
    } else if n >= 10 {
      assert |Digits(n)| == |Digits(n / 10)| + 1;
    }
  }

  /**
   * The shape of the thousands format: a first group of one to three digits,
   * then groups of exactly three, which together spell the decimal form of `n`.
   */
  lemma {:induction false} GroupsShape(n: nat)
    ensures var gs := Groups(n);
      && 1 <= |gs[0]| <= 3
      && (forall k :: 1 <= k < |gs| ==> |gs[k]| == 3)
      && (forall k :: 0 <= k < |gs| ==> AllDigits(gs[k]))
      && Concat(gs) == Digits(n)
  {
    if n < 1000 {
      DigitsCourts(n);
      assert Concat([Digits(n)]) == Concat([]) + Digits(n);
    } else {
      GroupsShape(n / 1000);
      DigitsSplit(n);
      var gs := Groups(n);
      assert gs[..|gs| - 1] == Groups(n / 1000);
    }
  }

  lemma {:induction false} JoinSnoc(sep: string, items: seq<string>, last: string)
    requires items != []
    ensures Join(sep, items + [last]) == Join(sep, items) + sep + last
  {
    if |items| > 1 {
      JoinSnoc(sep, items[1..], last);
      assert (items + [last])[1..] == items[1..] + [last];
    }
  }

  lemma {:induction false} SansEspacesAppend(a: string, b: string)
    ensures SansEspaces(a + b) == SansEspaces(a) + SansEspaces(b)
  {
    if b == [] {
      assert a + b == a;
    } else {
      SansEspacesAppend(a, b[..|b| - 1]);
      assert (a + b)[..|a + b| - 1] == a + b[..|b| - 1];
    }
  }

  lemma {:induction false} SansEspacesDigits(s: string)
    requires AllDigits(s)
    ensures SansEspaces(s) == s
  {
    if s != [] {
      SansEspacesDigits(s[..|s| - 1]);
    }
  }

  /** With the separating spaces removed, the grouped form of `n` is `str(n)`. */
  lemma GroupedDigits(n: nat)
    ensures SansEspaces(Grouped(n)) == Digits(n)
  {
    GroupsShape(n);
    GroupsConcat(Groups(n));
  }

  lemma {:induction false} GroupsConcat(gs: seq<string>)
    requires gs != [] && forall k :: 0 <= k < |gs| ==> AllDigits(gs[k])
    ensures SansEspaces(Join(" ", gs)) == Concat(gs)
  {
    var init, last := gs[..|gs| - 1], gs[|gs| - 1];
    assert gs == init + [last];
    SansEspacesDigits(last);
    if init == [] {
      assert Concat(gs) == Concat([]) + last;
    } else {
      GroupsConcat(init);
      JoinSnoc(" ", init, last);
      SansEspacesAppend(Join(" ", init) + " ", last);
      SansEspacesAppend(Join(" ", init), " ");
      assert SansEspaces(" ") == [];
    }
  }

  /** The value `server/tests/test_models.py` checks: ten thousand is written `10 000`. */
  lemma DixMille()
    ensures FormatMilliers(10000) == "10 000"
    ensures Contains(CoutEstimatif(10000, 50000), "10 000Ar")
  {
    assert Digits(10) == "10";
    assert Pad3(0) == "000";
    assert Groups(10000) == ["10", "000"];
    assert Join(" ", ["10", "000"]) == "10 000";
    var c := CoutEstimatif(10000, 50000);
    assert c[0..8] == "10 000Ar";
    assert OccursAt(c, "10 000Ar", 0);
  }

  /**
   * `to_dict`: the seven stored fields unchanged plus the formatted cost; the
   * raw `cout_min` and `cout_max` are not exposed.
   */
  function ToDict(d: Diagnostic): (r: Dict)
    ensures r.Keys == {"id", "nom", "description", "gravite", "cout_estimatif",
                       "symptomes_requis", "symptomes_optionnels", "conseils"}
    ensures "cout_min" !in r && "cout_max" !in r
    ensures r["id"] == Str(d.id) && r["nom"] == Str(d.nom)
    ensures r["description"] == Str(d.description) && r["gravite"] == Str(d.gravite)
    ensures r["cout_estimatif"] == Str(CoutEstimatif(d.coutMin, d.coutMax))
    ensures r["symptomes_requis"] == StrArr(d.symptomesRequis)
    ensures r["symptomes_optionnels"] == StrArr(d.symptomesOptionnels)
    ensures r["conseils"] == OptStr(d.conseils)
  {
    map["id" := Str(d.id), "nom" := Str(d.nom), "description" := Str(d.description),
        "gravite" := Str(d.gravite), "cout_estimatif" := Str(CoutEstimatif(d.coutMin, d.coutMax)),
        "symptomes_requis" := StrArr(d.symptomesRequis),
        "symptomes_optionnels" := StrArr(d.symptomesOptionnels),
        "conseils" := OptStr(d.conseils)]
  }

  /**
   * `from_dict`: seven required keys, read in the order of the source;
   * `symptomes_optionnels` defaults to `[]` and `conseils` to `None`.
   */
  function FromDict(data: Dict): (r: Result<Diagnostic, FieldError>)
    ensures "id" !in data ==> r == Err(MissingKey("id"))
    ensures r.Ok? <==>
      StrField(data, "id").Ok? && StrField(data, "nom").Ok? && StrField(data, "description").Ok?
      && StrField(data, "gravite").Ok? && IntField(data, "cout_min").Ok? && IntField(data, "cout_max").Ok?
      && StrListField(data, "symptomes_requis").Ok? && OptStrListField(data, "symptomes_optionnels").Ok?
      && OptStrField(data, "conseils").Ok?
    ensures r.Ok? ==> "id" in data && "nom" in data && "description" in data && "gravite" in data
    ensures r.Ok? ==> "cout_min" in data && "cout_max" in data && "symptomes_requis" in data
    ensures r.Ok? ==> data["id"] == Str(r.value.id) && data["nom"] == Str(r.value.nom)
    ensures r.Ok? ==> data["description"] == Str(r.value.description)
    ensures r.Ok? ==> data["gravite"] == Str(r.value.gravite)
    ensures r.Ok? ==> data["cout_min"] == Int(r.value.coutMin) && data["cout_max"] == Int(r.value.coutMax)
    ensures r.Ok? ==> data["symptomes_requis"] == StrArr(r.value.symptomesRequis)
    ensures r.Ok? && "symptomes_optionnels" !in data ==> r.value.symptomesOptionnels == []
    ensures r.Ok? && "conseils" !in data ==> r.value.conseils == None
    ensures r.Ok? && "symptomes_optionnels" in data ==>
      var o := data["symptomes_optionnels"];
      (o == Null ==> r.value.symptomesOptionnels == []) && (o != Null ==> o == StrArr(r.value.symptomesOptionnels))
    ensures r.Ok? && "conseils" in data ==> data["conseils"] == OptStr(r.value.conseils)
  {
    var id :- StrField(data, "id");
    var nom :- StrField(data, "nom");
    var description :- StrField(data, "description");
    var gravite :- StrField(data, "gravite");
    var coutMin :- IntField(data, "cout_min");
    var coutMax :- IntField(data, "cout_max");
    var requis :- StrListField(data, "symptomes_requis");
    var optionnels :- OptStrListField(data, "symptomes_optionnels");
    var conseils :- OptStrField(data, "conseils");
    Ok(NouveauDiagnostic(id, nom, description, gravite, coutMin, coutMax, requis, optionnels, conseils))
  }

  /** The first field that cannot be read, in the order id, nom, description, gravite, costs, lists, conseils, gives the error. */
  lemma FromDictOrdre(data: Dict)
    ensures var id, nom, desc := StrField(data, "id"), StrField(data, "nom"), StrField(data, "description");
      var grav, cmin, cmax := StrField(data, "gravite"), IntField(data, "cout_min"), IntField(data, "cout_max");
      var req := StrListField(data, "symptomes_requis");
      && (id.Err? ==> FromDict(data) == Err(id.error))
      && (id.Ok? && nom.Err? ==> FromDict(data) == Err(nom.error))
      && (id.Ok? && nom.Ok? && desc.Err? ==> FromDict(data) == Err(desc.error))
      && (id.Ok? && nom.Ok? && desc.Ok? && grav.Err? ==> FromDict(data) == Err(grav.error))
      && (id.Ok? && nom.Ok? && desc.Ok? && grav.Ok? && cmin.Err? ==> FromDict(data) == Err(cmin.error))
      && (id.Ok? && nom.Ok? && desc.Ok? && grav.Ok? && cmin.Ok? && cmax.Err? ==> FromDict(data) == Err(cmax.error))
      && (id.Ok? && nom.Ok? && desc.Ok? && grav.Ok? && cmin.Ok? && cmax.Ok? && req.Err?
          ==> FromDict(data) == Err(req.error))
  {
  }

  /** A record with only the seven mandatory keys gets no optional symptoms and no advice. */
  lemma FromDictDefaults(id: string, nom: string, description: string, gravite: string,
                         coutMin: int, coutMax: int, requis: seq<string>)
    ensures var data := map["id" := Str(id), "nom" := Str(nom), "description" := Str(description),
                            "gravite" := Str(gravite), "cout_min" := Int(coutMin), "cout_max" := Int(coutMax),
                            "symptomes_requis" := StrArr(requis)];
      FromDict(data) == Ok(Diagnostic(id, nom, description, gravite, coutMin, coutMax, requis, [], None))
  {
    StrArrAsStrings(requis);
  }

  /** Putting the two costs back beside `to_dict`'s fields rebuilds the same diagnostic. */
  lemma FromDictToDict(d: Diagnostic)
    ensures FromDict(ToDict(d)["cout_min" := Int(d.coutMin)]["cout_max" := Int(d.coutMax)]) == Ok(d)
  {
    var data := ToDict(d)["cout_min" := Int(d.coutMin)]["cout_max" := Int(d.coutMax)];
    StrArrAsStrings(d.symptomesRequis);
    StrArrAsStrings(d.symptomesOptionnels);
    assert StrListField(data, "symptomes_requis") == Ok(d.symptomesRequis);
    assert OptStrListField(data, "symptomes_optionnels") == Ok(Some(d.symptomesOptionnels));
    assert OptStrField(data, "conseils") == Ok(d.conseils);
  }
}
