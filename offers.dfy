/** The offer record shared by the server extractor, the batch client, the
    older single-offer client and the comparison table: a supplier, a contract
    label and eight tariff components. */
module Offers {
  import opened Wrappers

  /** The eight numeric tariff components, in the order the source lists them. */
  datatype NumericField =
    PrixMolecule | Cee | Transport | AbonnementF | Distribution | TransportAnn | Cta | Ticgn

  /** The JSON key of a component. */
  function FieldName(f: NumericField): string
  {
    match f
    case PrixMolecule => "prixMolecule"
    case Cee => "cee"
    case Transport => "transport"
    case AbonnementF => "abonnementF"
    case Distribution => "distribution"
    case TransportAnn => "transportAnn"
    case Cta => "cta"
    case Ticgn => "ticgn"
  }

  /** Prices in €/MWh (molecule, CEE, transport, TICGN) and yearly amounts in € (the others). */
  datatype Tariff = Tariff(
    prixMolecule: real, cee: real, transport: real, abonnementF: real,
    distribution: real, transportAnn: real, cta: real, ticgn: real)
  {
    function Get(f: NumericField): real
    {
      match f
      case PrixMolecule => prixMolecule
      case Cee => cee
      case Transport => transport
      case AbonnementF => abonnementF
      case Distribution => distribution
      case TransportAnn => transportAnn
      case Cta => cta
      case Ticgn => ticgn
    }

    /** `{ ...this, [field]: v }`. */
    function With(f: NumericField, v: real): (t: Tariff)
      ensures t.Get(f) == v
      ensures forall g :: g != f ==> t.Get(g) == Get(g)
    {
      match f
      case PrixMolecule => this.(prixMolecule := v)
      case Cee => this.(cee := v)
      case Transport => this.(transport := v)
      case AbonnementF => this.(abonnementF := v)
      case Distribution => this.(distribution := v)
      case TransportAnn => this.(transportAnn := v)
      case Cta => this.(cta := v)
      case Ticgn => this.(ticgn := v)
    }
  }

  /** Two tariffs are equal iff they agree on every component. */
  lemma TariffExtensional(t: Tariff, u: Tariff)
    requires forall f :: t.Get(f) == u.Get(f)
    ensures t == u
  {
    assert t.Get(PrixMolecule) == u.Get(PrixMolecule) && t.Get(Cee) == u.Get(Cee);
    assert t.Get(Transport) == u.Get(Transport) && t.Get(AbonnementF) == u.Get(AbonnementF);
    assert t.Get(Distribution) == u.Get(Distribution) && t.Get(TransportAnn) == u.Get(TransportAnn);
    assert t.Get(Cta) == u.Get(Cta) && t.Get(Ticgn) == u.Get(Ticgn);
  }

  /** The value a normaliser puts in a component whose input is missing or 0:
      the regulated distribution, transport, CTA and TICGN figures, 0 otherwise. */
  function FieldDefault(f: NumericField): real
  {
    match f
    case PrixMolecule => 0.0
    case Cee => 0.0
    case Transport => 8.69
    case AbonnementF => 0.0
    case Distribution => 5022.04
    case TransportAnn => 1231.08
    case Cta => 304.52
    case Ticgn => 17.16
  }

  /** The tariff whose every component is its default. */
  const DefaultTariff: Tariff := Tariff(0.0, 0.0, 8.69, 0.0, 5022.04, 1231.08, 304.52, 17.16)

  /** An extracted offer. `consommationReference` is absent (None) when the
      producer leaves the property out. */
  datatype Offer = Offer(
    fournisseur: string,
    typeContrat: string,
    tariff: Tariff,
    consommationReference: Option<real>)

  /** The supplier name a normaliser gives an offer that names none. */
  const UnknownSupplier: string := "Fournisseur inconnu"
}
