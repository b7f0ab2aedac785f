/** The older single-offer client `RealAIService`: the normaliser applied
    to the model's JSON answer, its number parser, the regular-expression
    fallback used when the model cannot be reached or answers something that
    is not JSON, and the policy of `extractWithOpenAI` that chooses between
    them. The request to the model and the text extraction are inputs. */
module RealAIService {
  import opened Wrappers
  import opened JsText
  import opened Json
  import opened Offers
  import ExtractContracts

  /** What the single-offer client returns. */
  datatype ExtractedData = ExtractedData(fournisseur: string, typeContrat: string, tariff: Tariff)

  /** The contract label this client gives when none is known. */
  const FixedTwelveMonths: string := "Fixe 12 mois"

  // ================================================================ normaliser

  /** `x || d` on a number `parseFloat` produced from digits, commas and
      periods, which is never infinite: NaN and 0 give `d`. */
  function NumberOr(x: JsNumber, d: real): (r: real)
    requires !x.Infinite?
    ensures x.Finite? && x.value != 0.0 ==> r == x.value
    ensures x.NaN? || (x.Finite? && x.value == 0.0) ==> r == d
  {
    if x.Finite? && x.value != 0.0 then x.value else d
  }

  /** `parseFloat` of this class: a number unchanged, a string cleaned,
      parsed and defaulted to 0 with `|| 0`, anything else 0. */
  function LegacyParseFloat(v: Option<Json>): (r: real)
    ensures v.Some? && v.value.JNum? ==> r == v.value.n
    ensures v.Some? && v.value.JStr? ==> r >= 0.0
    ensures v.None? || !(v.value.JNum? || v.value.JStr?) ==> r == 0.0
  {
    match v
    case Some(JNum(n, _)) => n
    case Some(JStr(s)) =>
      ParseFloatOfNumericChars(CleanNumeric(s));
      NumberOr(ParseFloat(CleanNumeric(s)), 0.0)
    case _ => 0.0
  }

  /** This parser and the server's `parseFloatSafe` agree on every input: the
      `|| 0` only turns a NaN into the 0 the other one returns anyway. */
  lemma LegacyParseFloatAgrees(v: Option<Json>)
    ensures LegacyParseFloat(v) == ExtractContracts.ParseFloatSafe(v)
  {
    match v {
      case Some(JStr(s)) =>
        ParseFloatOfNumericChars(CleanNumeric(s));
      case _ =>
    }
  }

  /** One component as `validateAndCleanData` computes it. */
  function CleanedComponent(v: Json, f: NumericField): real
    requires !v.JNull?
  {
    ExtractContracts.OrDefault(LegacyParseFloat(Member(v, FieldName(f))), FieldDefault(f))
  }

  function CleanedTariff(v: Json): (t: Tariff)
    requires !v.JNull?
    ensures forall f :: t.Get(f) == CleanedComponent(v, f)
  {
    Tariff(
      CleanedComponent(v, PrixMolecule), CleanedComponent(v, Cee),
      CleanedComponent(v, Transport), CleanedComponent(v, AbonnementF),
      CleanedComponent(v, Distribution), CleanedComponent(v, TransportAnn),
      CleanedComponent(v, Cta), CleanedComponent(v, Ticgn))
  }

  /** `validateAndCleanData`; None stands for the `TypeError` of reading a
      property of `null`. Names are defaulted but not trimmed. */
  function ValidateAndCleanData(v: Json): (r: Option<ExtractedData>)
    ensures r.None? <==> v.JNull?
    ensures r.Some? ==> forall f :: r.value.tariff.Get(f) != 0.0 || FieldDefault(f) == 0.0
    ensures r.Some? && !Truthy(Member(v, "fournisseur")) ==> r.value.fournisseur == UnknownSupplier
    ensures r.Some? && !Truthy(Member(v, "typeContrat")) ==> r.value.typeContrat == FixedTwelveMonths
  {
    if v.JNull? then None
    else
      Some(ExtractedData(
        ExtractContracts.StringOr(Member(v, "fournisseur"), UnknownSupplier),
        ExtractContracts.StringOr(Member(v, "typeContrat"), FixedTwelveMonths),
        CleanedTariff(v)))
  }

  /** The two normalisers give the same tariff, and the server's names are
      this client's names trimmed, except for the default contract label. */
  lemma CleanedAgreesWithValidated(v: Json)
    requires !v.JNull?
    ensures ValidateAndCleanData(v).value.tariff == ExtractContracts.ValidateOffer(v).value.tariff
    ensures ExtractContracts.ValidateOffer(v).value.fournisseur == Trim(ValidateAndCleanData(v).value.fournisseur)
    ensures Truthy(Member(v, "typeContrat")) ==>
              ExtractContracts.ValidateOffer(v).value.typeContrat == Trim(ValidateAndCleanData(v).value.typeContrat)
    ensures !Truthy(Member(v, "typeContrat")) ==>
              && ValidateAndCleanData(v).value.typeContrat == FixedTwelveMonths
              && ExtractContracts.ValidateOffer(v).value.typeContrat == Trim(ExtractContracts.UnspecifiedContract)
  {
    var t := ValidateAndCleanData(v).value.tariff;
    var u := ExtractContracts.ValidateOffer(v).value.tariff;
    forall f
      ensures t.Get(f) == u.Get(f)
    {
      LegacyParseFloatAgrees(Member(v, FieldName(f)));
    }
    TariffExtensional(t, u);
  }

  // ================================================================ regular expressions

  /** `w` occurs at `p` in `s` under the `i` flag. The words searched for
      are ASCII or Latin-1, where `toLowerCase` agrees with the flag's
      upper-case comparison. */
  predicate MatchesAt(s: string, p: nat, w: string)
  {
    p + |w| <= |s| && Lower(s[p..p + |w|]) == Lower(w)
  }

  /** The end of the line `i` is on: the first line terminator at or after
      `i`, which the regular-expression `.` cannot cross. */
  function LineEnd(s: string, i: nat): (e: nat)
    requires i <= |s|
    ensures i <= e <= |s|
    ensures e == |s| || IsLineTerminator(s[e])
    ensures forall k :: i <= k < e ==> !IsLineTerminator(s[k])
    decreases |s| - i
  {
    if i == |s| || IsLineTerminator(s[i]) then i else LineEnd(s, i + 1)
  }

  /** The first digit in `s[i..e]`. */
  function FirstDigit(s: string, i: nat, e: nat): (r: Option<nat>)
    requires i <= e <= |s|
    ensures r.Some? ==> i <= r.value < e && IsDigit(s[r.value])
    ensures forall k :: i <= k < e && (r.None? || k < r.value) ==> !IsDigit(s[k])
    decreases e - i
  {
    if i == e then None
    else if IsDigit(s[i]) then Some(i)
    else FirstDigit(s, i + 1, e)
  }

  /** `.*?(\d+[,.]?\d*)` from `i`: the lazy `.*?` stops at the first digit
      on the line, and the group then takes the longest number there, since
      nothing follows it in the pattern. The result is the group's bounds. */
  function LazyNumber(s: string, i: nat): (r: Option<(nat, nat)>)
    requires i <= |s|
    ensures r.Some? ==> i <= r.value.0 < |s| && IsDigit(s[r.value.0]) && r.value.1 == ExtractContracts.NumberEnd(s, r.value.0)
    ensures r.Some? ==> forall k :: i <= k <= r.value.0 ==> !IsLineTerminator(s[k])
    ensures r.None? <==> forall k :: i <= k < LineEnd(s, i) ==> !IsDigit(s[k])
  {
    match FirstDigit(s, i, LineEnd(s, i))
    case Some(q) => Some((q, ExtractContracts.NumberEnd(s, q)))
    case None => None
  }

  /** `/w.*?(\d+[,.]?\d*)/i` at `p`. */
  function KeywordNumberAt(s: string, p: nat, w: string): (r: Option<(nat, nat)>)
    ensures r.Some? ==> MatchesAt(s, p, w)
  {
    if MatchesAt(s, p, w) then LazyNumber(s, p + |w|) else None
  }

  /** Where `s.match(/w.*?(\d+[,.]?\d*)/i)` matches: the leftmost start. */
  function KeywordMatch(s: string, w: string, from: nat): (r: Option<nat>)
    ensures r.Some? ==> from <= r.value < |s| && KeywordNumberAt(s, r.value, w).Some?
  {
    FirstFound(KeywordFound(s, w), from, |s|)
  }

  function KeywordFound(s: string, w: string): nat -> bool
  {
    (p: nat) => KeywordNumberAt(s, p, w).Some?
  }

  /** No position before the keyword match starts one. */
  lemma KeywordMatchIsFirst(s: string, w: string, from: nat)
    ensures forall p: nat :: from <= p < |s| && (KeywordMatch(s, w, from).None? || p < KeywordMatch(s, w, from).value) ==>
              KeywordNumberAt(s, p, w).None?
  {
    FirstFoundIsFirst(KeywordFound(s, w), from, |s|);
    forall p: nat | from <= p < |s| && (KeywordMatch(s, w, from).None? || p < KeywordMatch(s, w, from).value)
      ensures KeywordNumberAt(s, p, w).None?
    {
      assert !KeywordFound(s, w)(p);
    }
  }

  /** The first position from `from` on, before `end`, at which `found`
      holds: where a regular expression without the global flag matches. */
  function FirstFound(found: nat -> bool, from: nat, end: nat): (r: Option<nat>)
    ensures r.Some? ==> from <= r.value < end && found(r.value)
    decreases end - from
  {
    if from >= end then None
    else if found(from) then Some(from)
    else FirstFound(found, from + 1, end)
  }

  lemma {:induction false} FirstFoundIsFirst(found: nat -> bool, from: nat, end: nat)
    ensures forall p: nat :: from <= p < end && (FirstFound(found, from, end).None? || p < FirstFound(found, from, end).value) ==>
              !found(p)
    decreases end - from
  {
    if from < end && !found(from) {
      FirstFoundIsFirst(found, from + 1, end);
    }
  }

  /** `parseFloat` of a captured number with its first comma made a period. */
  function CapturedValue(s: string, q: nat, e: nat): (r: JsNumber)
    requires q < e <= |s| && forall k :: q <= k < e ==> IsNumericChar(s[k])
    requires IsDigit(s[q])
    ensures r.Finite? && r.value >= 0.0
  {
    var t := ReplaceFirst(s[q..e], ',', '.');
    assert t[0] == s[q];
    ParseFloatOfNumericChars(t);
    ParseFloat(t)
  }

  /** `parseFloat(s.match(/w.*?(\d+[,.]?\d*)/i)?.[1]?.replace(',', '.') || '0') || d`.
      With no match the string "0" is parsed, which gives 0 and so `d`. */
  function KeywordValue(s: string, w: string, d: real): (r: real)
    ensures KeywordMatch(s, w, 0).None? ==> r == d
    ensures d > 0.0 ==> r > 0.0
  {
    match KeywordMatch(s, w, 0)
    case None => d
    case Some(p) =>
      var (q, e) := KeywordNumberAt(s, p, w).value;
      NumberOr(CapturedValue(s, q, e), d)
  }

  /** The regular-expression alternatives for the supplier, in their order. */
  const SupplierAlternatives: seq<string> := [
    "ENGIE", "TotalEnergies", "Total Energies", "Ekwateur", "Endesa", "Dyneff",
    "Gaz de Bordeaux", "EDF", "Vattenfall", "ENI"]

  /** The end of the first alternative in `alts` that matches at `p`. */
  function AlternativeAt(s: string, p: nat, alts: seq<string>): (r: Option<nat>)
    ensures r.Some? <==> exists k :: 0 <= k < |alts| && MatchesAt(s, p, alts[k])
    ensures r.Some? ==> exists k :: 0 <= k < |alts| && MatchesAt(s, p, alts[k]) && r.value == p + |alts[k]|
  {
    if alts == [] then None
    else if MatchesAt(s, p, alts[0]) then Some(p + |alts[0]|)
    else
      var r := AlternativeAt(s, p, alts[1..]);
      assert forall k :: 0 < k < |alts| ==> alts[k] == alts[1..][k - 1];
      r
  }

  /** Where `s.match(/(a|b|...)/i)` matches: the leftmost start. */
  function AlternationMatch(s: string, alts: seq<string>, from: nat): (r: Option<nat>)
    ensures r.Some? ==> from <= r.value < |s| && AlternativeAt(s, r.value, alts).Some?
  {
    FirstFound(AlternativeFound(s, alts), from, |s|)
  }

  function AlternativeFound(s: string, alts: seq<string>): nat -> bool
  {
    (p: nat) => AlternativeAt(s, p, alts).Some?
  }

  /** No alternative matches before the match. */
  lemma AlternationMatchIsFirst(s: string, alts: seq<string>, from: nat)
    ensures forall p: nat :: from <= p < |s| && (AlternationMatch(s, alts, from).None? || p < AlternationMatch(s, alts, from).value) ==>
              AlternativeAt(s, p, alts).None?
  {
    FirstFoundIsFirst(AlternativeFound(s, alts), from, |s|);
    forall p: nat | from <= p < |s| && (AlternationMatch(s, alts, from).None? || p < AlternationMatch(s, alts, from).value)
      ensures AlternativeAt(s, p, alts).None?
    {
      assert !AlternativeFound(s, alts)(p);
    }
  }

  /** `s.match(/(a|b|...)/i)?.[0] || fallback`: the text of the leftmost match. */
  function MatchedText(s: string, alts: seq<string>, fallback: string): (r: string)
    ensures AlternationMatch(s, alts, 0).None? ==> r == fallback
    ensures AlternationMatch(s, alts, 0).Some? ==>
              exists k :: 0 <= k < |alts| && MatchesAt(s, AlternationMatch(s, alts, 0).value, alts[k])
                && r == s[AlternationMatch(s, alts, 0).value..AlternationMatch(s, alts, 0).value + |alts[k]|]
  {
    match AlternationMatch(s, alts, 0)
    case None => fallback
    case Some(p) => s[p..AlternativeAt(s, p, alts).value]
  }

  /** `text.match(patterns.fournisseur)?.[0] || 'Fournisseur inconnu'`: the
      leftmost supplier name as spelled in the text. */
  function FallbackSupplier(text: string): (r: string)
    ensures r == UnknownSupplier <==> AlternationMatch(text, SupplierAlternatives, 0).None?
    ensures r != UnknownSupplier ==>
              exists k :: 0 <= k < |SupplierAlternatives| && Lower(r) == Lower(SupplierAlternatives[k])
  {
    SupplierNamesShort();
    MatchedTextIsAlternative(text, SupplierAlternatives, UnknownSupplier);
    MatchedText(text, SupplierAlternatives, UnknownSupplier)
  }

  /** Every supplier alternative is shorter than the "unknown supplier" sentinel. */
  lemma SupplierNamesShort()
    ensures forall k :: 0 <= k < |SupplierAlternatives| ==> |SupplierAlternatives[k]| < |UnknownSupplier|
  {
  }

  /** With a fallback longer than every alternative, the matched text is
      the fallback iff nothing matches, and otherwise one of the
      alternatives up to case. */
  lemma MatchedTextIsAlternative(s: string, alts: seq<string>, fallback: string)
    requires forall k :: 0 <= k < |alts| ==> |alts[k]| < |fallback|
    ensures MatchedText(s, alts, fallback) == fallback <==> AlternationMatch(s, alts, 0).None?
    ensures MatchedText(s, alts, fallback) != fallback ==>
              exists k :: 0 <= k < |alts| && Lower(MatchedText(s, alts, fallback)) == Lower(alts[k])
  {
    var m := AlternationMatch(s, alts, 0);
    var r := MatchedText(s, alts, fallback);
    if m.Some? {
      var p := m.value;
      var e := AlternativeAt(s, p, alts).value;
      assert r == s[p..e];
      var k :| 0 <= k < |alts| && MatchesAt(s, p, alts[k]) && e == p + |alts[k]|;
      assert Lower(r) == Lower(alts[k]);
      assert |r| < |fallback|;
    }
  }

  const Prix: string := "prix"
  const Molecule: string := "molécule"

  /** `molécule.*?(\d+[,.]?\d*)` at `m`. */
  function MoleculeNumberAt(s: string, m: nat): Option<(nat, nat)>
  {
    KeywordNumberAt(s, m, Molecule)
  }

  /** The greedy `.*molécule.*?(\d+[,.]?\d*)` from `lo`: the `.*` first
      takes the rest of the line, then gives back one character at a time,
      so the last "molécule" on the line from which a number follows wins.
      `m` is the candidate position, scanned downwards. */
  function GreedyMolecule(s: string, lo: nat, m: nat): (r: Option<(nat, nat)>)
    requires lo <= |s| && lo <= m <= LineEnd(s, lo)
    ensures r.Some? ==> exists k :: lo <= k <= m && MoleculeNumberAt(s, k) == r
    ensures r.None? <==> forall k :: lo <= k <= m ==> MoleculeNumberAt(s, k).None?
  {
    var r := LastFound(MoleculeAt(s), lo, m);
    assert forall k :: MoleculeAt(s)(k) == MoleculeNumberAt(s, k);
    if r.Some? then
      LastFoundSome(MoleculeAt(s), lo, m);
      r
    else
      LastFoundNone(MoleculeAt(s), lo, m);
      r
  }

  /** `MoleculeNumberAt` on `s`, as a function of the position. */
  function MoleculeAt(s: string): nat -> Option<(nat, nat)>
  {
    (k: nat) => MoleculeNumberAt(s, k)
  }

  /** The first result of `at` scanning positions downwards from `m` to `lo`. */
  function LastFound<T>(at: nat -> Option<T>, lo: nat, m: nat): Option<T>
    requires lo <= m
    decreases m - lo
  {
    match at(m)
    case Some(g) => Some(g)
    case None => if m == lo then None else LastFound(at, lo, m - 1)
  }

  /** A downward scan finds the highest position with a result. */
  lemma {:induction false} LastFoundIsLast<T>(at: nat -> Option<T>, lo: nat, m: nat) returns (k: nat)
    requires lo <= m && LastFound(at, lo, m).Some?
    ensures lo <= k <= m && at(k) == LastFound(at, lo, m)
    ensures forall j :: k < j <= m ==> at(j).None?
    decreases m - lo
  {
    if at(m).Some? {
      k := m;
    } else {
      k := LastFoundIsLast(at, lo, m - 1);
    }
  }

  /** A downward scan's result comes from some position in range. */
  lemma LastFoundSome<T>(at: nat -> Option<T>, lo: nat, m: nat)
    requires lo <= m && LastFound(at, lo, m).Some?
    ensures exists k :: lo <= k <= m && at(k) == LastFound(at, lo, m)
  {
    var k := LastFoundIsLast(at, lo, m);
  }

  /** A downward scan finds nothing only when no position has a result. */
  lemma {:induction false} LastFoundNone<T>(at: nat -> Option<T>, lo: nat, m: nat)
    requires lo <= m && LastFound(at, lo, m).None?
    ensures forall k :: lo <= k <= m ==> at(k).None?
    decreases m - lo
  {
    if m > lo {
      LastFoundNone(at, lo, m - 1);
    }
  }

  /** The greedy match is the number after the last "molécule" on the line
      from which one follows. */
  lemma GreedyMoleculeLast(s: string, lo: nat, m: nat) returns (k: nat)
    requires lo <= |s| && lo <= m <= LineEnd(s, lo)
    requires GreedyMolecule(s, lo, m).Some?
    ensures lo <= k <= m && MoleculeNumberAt(s, k) == GreedyMolecule(s, lo, m)
    ensures forall j :: k < j <= m ==> MoleculeNumberAt(s, j).None?
  {
    k := LastFoundIsLast(MoleculeAt(s), lo, m);
    forall j | k < j <= m
      ensures MoleculeNumberAt(s, j).None?
    {
      assert MoleculeAt(s)(j).None?;
    }
  }

  /** `/prix.*molécule.*?(\d+[,.]?\d*)|molécule.*?(\d+[,.]?\d*)/i` at `p`:
      the first alternative, else the second; the bounds of whichever group
      captured. */
  function PriceGroupAt(s: string, p: nat): (r: Option<(nat, nat)>)
    ensures r.Some? ==> MatchesAt(s, p, Prix) || MatchesAt(s, p, Molecule)
    ensures r.Some? ==> exists k :: MoleculeNumberAt(s, k) == r
  {
    var first := if MatchesAt(s, p, Prix) then GreedyMolecule(s, p + |Prix|, LineEnd(s, p + |Prix|)) else None;
    if first.Some? then
      first
    else MoleculeNumberAt(s, p)
  }

  /** Where the price pattern matches: the leftmost start. */
  function PriceMatch(s: string, from: nat): (r: Option<nat>)
    ensures r.Some? ==> from <= r.value < |s| && PriceGroupAt(s, r.value).Some?
  {
    FirstFound(PriceFound(s), from, |s|)
  }

  function PriceFound(s: string): nat -> bool
  {
    (p: nat) => PriceGroupAt(s, p).Some?
  }

  /** The price pattern matches nowhere before its match. */
  lemma PriceMatchIsFirst(s: string, from: nat)
    ensures forall p: nat :: from <= p < |s| && (PriceMatch(s, from).None? || p < PriceMatch(s, from).value) ==>
              PriceGroupAt(s, p).None?
  {
    FirstFoundIsFirst(PriceFound(s), from, |s|);
    forall p: nat | from <= p < |s| && (PriceMatch(s, from).None? || p < PriceMatch(s, from).value)
      ensures PriceGroupAt(s, p).None?
    {
      assert !PriceFound(s)(p);
    }
  }

  /** `prixMatch ? parseFloat((prixMatch[1] || prixMatch[2] || '0').replace(',', '.')) : 0`. */
  function FallbackPrice(text: string): (r: real)
    ensures r >= 0.0
  {
    match PriceMatch(text, 0)
    case None => 0.0
    case Some(p) =>
      var (q, e) := PriceGroupAt(text, p).value;
      CapturedValue(text, q, e).value
  }

  const CeeKeyword: string := "CEE"
  const TransportKeyword: string := "transport"

  /** `fallbackExtraction`. */
  function FallbackExtraction(text: string): (r: ExtractedData)
    ensures r.typeContrat == FixedTwelveMonths
    ensures r.tariff.prixMolecule >= 0.0 && r.tariff.cee > 0.0 && r.tariff.transport > 0.0
    ensures r.tariff.abonnementF == 0.0 && r.tariff.distribution == 5022.04
    ensures r.tariff.transportAnn == 1231.08 && r.tariff.cta == 304.52 && r.tariff.ticgn == 17.16
  {
    ExtractedData(
      FallbackSupplier(text),
      FixedTwelveMonths,
      Tariff(
        FallbackPrice(text),
        KeywordValue(text, CeeKeyword, 8.5),
        KeywordValue(text, TransportKeyword, 8.69),
        0.0, 5022.04, 1231.08, 304.52, 17.16))
  }

  /** A match ignores case: the text's spelling lower-cases to the alternative's. */
  lemma MatchedTextIgnoresCase(s: string, alts: seq<string>, fallback: string)
    requires AlternationMatch(s, alts, 0).Some?
    ensures exists k :: 0 <= k < |alts| && Lower(MatchedText(s, alts, fallback)) == Lower(alts[k])
  {
    var p := AlternationMatch(s, alts, 0).value;
    var k := AlternativeText(s, p, alts);
    assert MatchedText(s, alts, fallback) == s[p..AlternativeAt(s, p, alts).value];
  }

  /** The text an alternative matched lower-cases to that alternative. */
  lemma AlternativeText(s: string, p: nat, alts: seq<string>) returns (k: nat)
    requires AlternativeAt(s, p, alts).Some?
    ensures k < |alts| && p <= AlternativeAt(s, p, alts).value <= |s|
    ensures Lower(s[p..AlternativeAt(s, p, alts).value]) == Lower(alts[k])
  {
    k :| 0 <= k < |alts| && MatchesAt(s, p, alts[k]) && AlternativeAt(s, p, alts).value == p + |alts[k]|;
  }

  /** Both alternatives of the price pattern need "molécule": without it the price is 0. */
  lemma NoMoleculeNoPrice(text: string)
    requires forall p :: !MatchesAt(text, p, Molecule)
    ensures FallbackPrice(text) == 0.0
  {
    forall p: nat
      ensures PriceGroupAt(text, p).None?
    {
      if MatchesAt(text, p, Prix) {
      }
    }
  }

  /** The CEE value is read after the leftmost "CEE" that has a digit later
      on its line, from the first such digit; 8.5 when there is none or the
      number reads as 0. The transport value is read the same way. */
  lemma FallbackCeeSource(text: string)
    ensures KeywordMatch(text, CeeKeyword, 0).None? ==> FallbackExtraction(text).tariff.cee == 8.5
    ensures KeywordMatch(text, CeeKeyword, 0).Some? ==>
              var p := KeywordMatch(text, CeeKeyword, 0).value;
              var (q, e) := LazyNumber(text, p + |CeeKeyword|).value;
              && MatchesAt(text, p, CeeKeyword)
              && (forall k :: p + |CeeKeyword| <= k < q ==> !IsDigit(text[k]) && !IsLineTerminator(text[k]))
              && FallbackExtraction(text).tariff.cee == NumberOr(CapturedValue(text, q, e), 8.5)
  {
  }

  /** A tariff whose CEE and transport are positive and whose yearly
      components are the fixed figures is non-zero wherever the default is. */
  lemma FallbackTariffKeepsDefaults(t: Tariff)
    requires t.cee > 0.0 && t.transport > 0.0
    requires t.distribution == 5022.04 && t.transportAnn == 1231.08 && t.cta == 304.52 && t.ticgn == 17.16
    ensures forall f :: t.Get(f) != 0.0 || FieldDefault(f) == 0.0
  {
    forall f
      ensures t.Get(f) != 0.0 || FieldDefault(f) == 0.0
    {
      match f {
        case _ =>
      }
    }
  }

  // ================================================================ extractWithOpenAI

  /** How the call to the model ends: the request or reading the answer
      throws, or the answer's content is handed to `JSON.parse` (None when
      that throws). */
  datatype ModelReply = RequestThrew | Content(parsed: Option<Json>)

  const PromptHead: string :=
    "\nAnalyse ce contrat de fourniture de gaz "
    + "français et extrait les informations "
    + "tarifaires.\n\nTEXTE DU CONTRAT:\n"

  /** The rest of the prompt; the template literal keeps the
      ` // Limite ...` remark that follows the excerpt as prompt text. */
  const PromptTail: string :=
    " // Limite pour éviter les tokens excessifs\n\nINSTRUCTIONS:\n"
    + "- Extrait les données tarifaires exactes\n"
    + "- Si une information n'est pas trouvée, utilise 0\n"
    + "- Les prix sont généralement en €/MWh ou €/an\n"
    + "- Le TICGN est souvent 17,16 €/MWh (taxe standard française)\n\n"
    + "Réponds UNIQUEMENT avec ce JSON (aucun texte supplémentaire):\n"
    + "{\n  \"fournisseur\": \"nom exact du fournisseur\",\n"
    + "  \"typeContrat\": \"type et durée (ex: Fixe 36 mois)\",\n"
    + "  \"prixMolecule\": 0,\n  \"cee\": 0,\n  \"transport\": 0,\n  \"abonnementF\": 0,\n"
    + "  \"distribution\": 0,\n  \"transportAnn\": 0,\n  \"cta\": 0,\n  \"ticgn\": 17.16\n}"

  const PromptExcerptLength: nat := 3000

  /** The prompt sent to the model: the first 3000 characters of the text between fixed prose. */
  function OpenAIPrompt(text: string): (p: string)
    ensures |p| <= |PromptHead| + PromptExcerptLength + |PromptTail|
    ensures |PromptHead| <= |p| - |PromptTail| && p[..|PromptHead|] == PromptHead && p[|p| - |PromptTail|..] == PromptTail
    ensures var excerpt := p[|PromptHead|..|p| - |PromptTail|];
            && |excerpt| == (if |text| <= PromptExcerptLength then |text| else PromptExcerptLength)
            && excerpt == text[..|excerpt|]
  {
    var excerpt := SliceTo(text, PromptExcerptLength);
    Framed(PromptHead, excerpt, PromptTail);
    PromptHead + excerpt + PromptTail
  }

  /** The parts of `head + middle + tail` are found where they were put. */
  lemma Framed(head: string, middle: string, tail: string)
    ensures var p := head + middle + tail;
            && |p| == |head| + |middle| + |tail|
            && p[..|head|] == head && p[|p| - |tail|..] == tail && p[|head|..|p| - |tail|] == middle
  {
  }

  /** Texts that agree on their first 3000 characters give the same prompt. */
  lemma PromptSeesOnlyExcerpt(text1: string, text2: string)
    requires SliceTo(text1, PromptExcerptLength) == SliceTo(text2, PromptExcerptLength)
    ensures OpenAIPrompt(text1) == OpenAIPrompt(text2)
  {
  }

  /** `extractWithOpenAI`: the normalised answer, or the regular-expression
      fallback on the whole text when the call throws, the content is not
      JSON or it is `null`. It never throws. */
  function ExtractWithOpenAI(text: string, reply: ModelReply): (r: ExtractedData)
    ensures forall f :: r.tariff.Get(f) != 0.0 || FieldDefault(f) == 0.0
  {
    FallbackTariffKeepsDefaults(FallbackExtraction(text).tariff);
    match reply
    case Content(Some(v)) =>
      if v.JNull? then FallbackExtraction(text) else ValidateAndCleanData(v).value
    case _ =>
      FallbackExtraction(text)
  }

  /** The fallback is used exactly when no JSON object, array, string,
      number or boolean came back. */
  lemma ExtractWithOpenAIFallsBack(text: string, reply: ModelReply)
    ensures (reply.RequestThrew? || reply.parsed.None? || reply.parsed.value.JNull?)
            ==> ExtractWithOpenAI(text, reply) == FallbackExtraction(text)
    ensures reply.Content? && reply.parsed.Some? && !reply.parsed.value.JNull?
            ==> ExtractWithOpenAI(text, reply) == ValidateAndCleanData(reply.parsed.value).value
  {
  }
}
