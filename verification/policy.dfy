/**
 * The per-country document policy (`COUNTRY_RULES`): for each country and
 * person type, the label of the identification number, the required
 * document kinds in display order, and the maximum age in days of each kind.
 */
module Policy {

  /** The two person types offered by the radio button: "Persona natural" and "Persona jurídica". */
  datatype PersonType = Natural | Juridica

  /** The label of the radio button, also the table's second-level key. */
  function PersonTypeName(p: PersonType): string {
    match p
    case Natural => "Persona natural"
    case Juridica => "Persona jurídica"
  }

  datatype DocumentPolicy = DocumentPolicy(
    idLabel: string,
    requiredDocs: seq<string>,
    maxAgeDays: map<string, int>)

  /** The kind recorded for a document whose type was not detected. */
  const UnknownKind: string := "Desconocido"

  /** The countries the table lists, one constructor per top-level key. */
  datatype Country = Colombia | Mexico | Brasil | Argentina | Chile | Peru | Ecuador | Uruguay | CostaRica

  /** The key under which the table lists a country, as the country selector shows it. */
  function CountryName(c: Country): string {
    match c
    case Colombia => "Colombia"
    case Mexico => "Mexico"
    case Brasil => "Brasil"
    case Argentina => "Argentina"
    case Chile => "Chile"
    case Peru => "Perú"
    case Ecuador => "Ecuador"
    case Uruguay => "Uruguay"
    case CostaRica => "Costa Rica"
  }

  /** The countries in the order the selector lists them (the table's insertion order). */
  const Countries: seq<Country> :=
    [Colombia, Mexico, Brasil, Argentina, Chile, Peru, Ecuador, Uruguay, CostaRica]

  /**
   * The entries of the table: `COUNTRY_RULES[country]["person_types"][personType]`
   * for every country the table lists.
   */
  function Entry(country: Country, personType: PersonType): DocumentPolicy {
    match country
    case Colombia =>
      if personType == Natural then
        DocumentPolicy(
          "CC / NIT",
          ["RUT", "Documento de identidad", "Certificado Bancario"],
          map["RUT" := 365, "Documento de identidad" := 3650, "Certificado Bancario" := 90])
      else
        DocumentPolicy(
          "NIT",
          ["RUT", "Camara de Comercio", "Certificado Bancario"],
          map["RUT" := 365, "Camara de Comercio" := 30, "Certificado Bancario" := 90])
    case Mexico =>
      if personType == Natural then
        DocumentPolicy(
          "RFC",
          ["Constancia de Situacion Fiscal", "INE", "Estado de cuenta"],
          map["Constancia de Situacion Fiscal" := 365, "INE" := 3650, "Estado de cuenta" := 60])
      else
        DocumentPolicy(
          "RFC",
          ["Constancia de Situacion Fiscal", "Acta constitutiva", "Poder legal", "Estado de cuenta"],
          map["Constancia de Situacion Fiscal" := 365, "Acta constitutiva" := 3650,
              "Poder legal" := 3650, "Estado de cuenta" := 60])
    case Brasil =>
      if personType == Natural then
        DocumentPolicy(
          "CPF",
          ["CPF", "RG", "Comprovante de endereço", "Extrato bancario"],
          map["CPF" := 3650, "RG" := 3650, "Comprovante de endereço" := 90, "Extrato bancario" := 60])
      else
        DocumentPolicy(
          "CNPJ",
          ["CNPJ", "Contrato social", "Comprovante de endereço", "Extrato bancario"],
          map["CNPJ" := 365, "Contrato social" := 3650, "Comprovante de endereço" := 90,
              "Extrato bancario" := 60])
    case Argentina =>
      if personType == Natural then
        DocumentPolicy(
          "CUIL / DNI",
          ["CUIL", "DNI", "Constancia de CBU"],
          map["CUIL" := 365, "DNI" := 3650, "Constancia de CBU" := 90])
      else
        DocumentPolicy(
          "CUIT",
          ["CUIT", "Estatuto / Contrato social", "Acta de directorio", "Constancia de CBU"],
          map["CUIT" := 365, "Estatuto / Contrato social" := 3650, "Acta de directorio" := 3650,
              "Constancia de CBU" := 90])
    case Chile =>
      if personType == Natural then
        DocumentPolicy(
          "RUT",
          ["RUT", "Cedula de identidad", "Certificado de cuenta bancaria"],
          map["RUT" := 365, "Cedula de identidad" := 3650, "Certificado de cuenta bancaria" := 90])
      else
        DocumentPolicy(
          "RUT",
          ["RUT", "Escritura de constitucion", "Certificado de vigencia", "Certificado de cuenta bancaria"],
          map["RUT" := 365, "Escritura de constitucion" := 3650, "Certificado de vigencia" := 365,
              "Certificado de cuenta bancaria" := 90])
    case Peru =>
      if personType == Natural then
        DocumentPolicy(
          "DNI / RUC",
          ["RUC", "DNI", "Estado de cuenta"],
          map["RUC" := 365, "DNI" := 3650, "Estado de cuenta" := 60])
      else
        DocumentPolicy(
          "RUC",
          ["RUC", "Ficha RUC", "Vigencia de poder", "Estado de cuenta"],
          map["RUC" := 365, "Ficha RUC" := 365, "Vigencia de poder" := 365, "Estado de cuenta" := 60])
    case Ecuador =>
      if personType == Natural then
        DocumentPolicy(
          "CED / RUC",
          ["RUC", "Cedula", "Certificado bancario"],
          map["RUC" := 365, "Cedula" := 3650, "Certificado bancario" := 90])
      else
        DocumentPolicy(
          "RUC",
          ["RUC", "Nombramiento representante legal", "Certificado bancario"],
          map["RUC" := 365, "Nombramiento representante legal" := 365, "Certificado bancario" := 90])
    case Uruguay =>
      if personType == Natural then
        DocumentPolicy(
          "CI / RUT",
          ["RUT", "Cedula de identidad", "Constancia bancaria"],
          map["RUT" := 365, "Cedula de identidad" := 3650, "Constancia bancaria" := 90])
      else
        DocumentPolicy(
          "RUT",
          ["RUT", "Contrato social", "Certificado bancario"],
          map["RUT" := 365, "Contrato social" := 3650, "Certificado bancario" := 90])
    case CostaRica =>
      if personType == Natural then
        DocumentPolicy(
          "Cédula / N° ID",
          ["Cedula de identidad", "Comprobante de cuenta cliente"],
          map["Cedula de identidad" := 3650, "Comprobante de cuenta cliente" := 90])
      else
        DocumentPolicy(
          "Cédula jurídica",
          ["Cedula juridica", "Personeria juridica", "Comprobante de cuenta cliente"],
          map["Cedula juridica" := 365, "Personeria juridica" := 365, "Comprobante de cuenta cliente" := 90])
  }

  /** The static table, keyed by (country, person type). */
  const CountryRules: map<(Country, PersonType), DocumentPolicy> :=
    map key | key in TableKeys :: Entry(key.0, key.1)

  /** Every country paired with both person types. */
  const TableKeys: set<(Country, PersonType)> :=
    set country: Country, personType: PersonType :: (country, personType)

  predicate NoDuplicates(xs: seq<string>) {
    forall i, j :: 0 <= i < j < |xs| ==> xs[i] != xs[j]
  }

  /** The shape every table entry has. */
  predicate WellFormed(p: DocumentPolicy) {
    && p.idLabel != ""
    && NoDuplicates(p.requiredDocs)
    && (forall d :: d in p.requiredDocs ==> d in p.maxAgeDays)
    && (forall d :: d in p.maxAgeDays ==> p.maxAgeDays[d] > 0)
  }

  /** Distinct constructors stand for distinct keys of the table. */
  lemma KeyNamesDistinct(c1: Country, c2: Country, p1: PersonType, p2: PersonType)
    ensures CountryName(c1) == CountryName(c2) ==> c1 == c2
    ensures PersonTypeName(p1) == PersonTypeName(p2) ==> p1 == p2
  {
  }

  /** The selector lists every country exactly once. */
  lemma CountriesListEveryCountry(c: Country)
    ensures c in Countries
    ensures NoDuplicates(seq(|Countries|, i requires 0 <= i < |Countries| => CountryName(Countries[i])))
  {
  }

  lemma ColombiaEntriesWellFormed(p: PersonType)
    ensures WellFormed(Entry(Colombia, p))
    ensures UnknownKind !in Entry(Colombia, p).requiredDocs && UnknownKind !in Entry(Colombia, p).maxAgeDays
  {
  }

  lemma MexicoEntriesWellFormed(p: PersonType)
    ensures WellFormed(Entry(Mexico, p))
    ensures UnknownKind !in Entry(Mexico, p).requiredDocs && UnknownKind !in Entry(Mexico, p).maxAgeDays
  {
  }

  lemma BrasilEntriesWellFormed(p: PersonType)
    ensures WellFormed(Entry(Brasil, p))
    ensures UnknownKind !in Entry(Brasil, p).requiredDocs && UnknownKind !in Entry(Brasil, p).maxAgeDays
  {
  }

  lemma ArgentinaEntriesWellFormed(p: PersonType)
    ensures WellFormed(Entry(Argentina, p))
    ensures UnknownKind !in Entry(Argentina, p).requiredDocs && UnknownKind !in Entry(Argentina, p).maxAgeDays
  {
  }

  lemma ChileEntriesWellFormed(p: PersonType)
    ensures WellFormed(Entry(Chile, p))
    ensures UnknownKind !in Entry(Chile, p).requiredDocs && UnknownKind !in Entry(Chile, p).maxAgeDays
  {
  }

  lemma PeruEntriesWellFormed(p: PersonType)
    ensures WellFormed(Entry(Peru, p))
    ensures UnknownKind !in Entry(Peru, p).requiredDocs && UnknownKind !in Entry(Peru, p).maxAgeDays
  {
  }

  lemma EcuadorEntriesWellFormed(p: PersonType)
    ensures WellFormed(Entry(Ecuador, p))
    ensures UnknownKind !in Entry(Ecuador, p).requiredDocs && UnknownKind !in Entry(Ecuador, p).maxAgeDays
  {
  }

  lemma UruguayEntriesWellFormed(p: PersonType)
    ensures WellFormed(Entry(Uruguay, p))
    ensures UnknownKind !in Entry(Uruguay, p).requiredDocs && UnknownKind !in Entry(Uruguay, p).maxAgeDays
  {
  }

  lemma CostaRicaEntriesWellFormed(p: PersonType)
    ensures WellFormed(Entry(CostaRica, p))
    ensures UnknownKind !in Entry(CostaRica, p).requiredDocs && UnknownKind !in Entry(CostaRica, p).maxAgeDays
  {
  }

  /**
   * Every entry of the table is well formed, and none of them requires or
   * dates the placeholder kind of an undetected document.
   */
  lemma EntryWellFormed(c: Country, p: PersonType)
    ensures WellFormed(Entry(c, p))
    ensures UnknownKind !in Entry(c, p).requiredDocs && UnknownKind !in Entry(c, p).maxAgeDays
  {
    match c
    case Colombia => ColombiaEntriesWellFormed(p);
    case Mexico => MexicoEntriesWellFormed(p);
    case Brasil => BrasilEntriesWellFormed(p);
    case Argentina => ArgentinaEntriesWellFormed(p);
    case Chile => ChileEntriesWellFormed(p);
    case Peru => PeruEntriesWellFormed(p);
    case Ecuador => EcuadorEntriesWellFormed(p);
    case Uruguay => UruguayEntriesWellFormed(p);
    case CostaRica => CostaRicaEntriesWellFormed(p);
  }

  lemma CountryRulesWellFormed()
    ensures forall key :: key in CountryRules ==> WellFormed(CountryRules[key])
    ensures forall key :: key in CountryRules ==> UnknownKind !in CountryRules[key].requiredDocs
  {
    forall key | key in CountryRules
      ensures WellFormed(CountryRules[key]) && UnknownKind !in CountryRules[key].requiredDocs
    {
      EntryWellFormed(key.0, key.1);
      assert CountryRules[key] == Entry(key.0, key.1);
    }
  }

  /** `COUNTRY_RULES[country]["person_types"][person_type]`, for the keys the selectors offer. */
  function Lookup(country: Country, personType: PersonType): (p: DocumentPolicy)
    ensures WellFormed(p)
    ensures UnknownKind !in p.requiredDocs && UnknownKind !in p.maxAgeDays
  {
    EntryWellFormed(country, personType);
    Entry(country, personType)
  }

  /** Every pair the selectors offer is a key of the table, and the lookup returns its entry. */
  lemma LookupIsTableEntry(country: Country, personType: PersonType)
    ensures (country, personType) in CountryRules
    ensures Lookup(country, personType) == CountryRules[(country, personType)]
  {
    assert (country, personType) in TableKeys;
  }
}
