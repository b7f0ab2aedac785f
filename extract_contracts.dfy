/** The server-side extraction endpoint `api/extract-contracts.ts`: the
    document classifier, the prompt builder, the offer normaliser, the dispatch
    and filter of the model's JSON answer, and the keyword fallback. */
module ExtractContracts {
  import opened Wrappers
  import opened JsText
  import opened Json
  import opened Offers
  import Seqs

  // ================================================================ classifier

  datatype DocumentType = SingleContract | BrokerTable | ComparisonTable
  {
    /** The label the endpoint reports and embeds in the prompt. */
    function Name(): string
    {
      match this
      case SingleContract => "single_contract"
      case BrokerTable => "broker_table"
      case ComparisonTable => "comparison_table"
    }

    /** How many offers the type suggests: single < broker < comparison. */
    function Rank(): nat
    {
      match this
      case SingleContract => 0
      case BrokerTable => 1
      case ComparisonTable => 2
    }
  }

  const Providers: seq<string> :=
    ["engie", "totalenergies", "total energies", "edf", "ekwateur", "vattenfall", "eni"]

  const TableKeywords: seq<string> :=
    ["tableau", "comparatif", "offre", "proposition", "courtier", "sélection"]

  predicate NonEmptyWords(words: seq<string>)
  {
    forall k :: 0 <= k < |words| ==> |words[k]| > 0
  }

  /** The sum over `names` of the number of global matches of each name. */
  function SumCounts(lower: string, names: seq<string>): (r: nat)
    requires NonEmptyWords(names)
    ensures r > 0 <==> AnyContains(lower, names)
  {
    if names == [] then 0
    else
      AnyContainsCons(lower, names);
      CountOccurrences(lower, names[0]) + SumCounts(lower, names[1..])
  }

  /** `mentionCount`: the case-insensitive (`gi`) matches of every provider name.
      The names are lower-case ASCII, so a case-insensitive match in the text is
      a match in its lower-cased form. There is a mention iff some name occurs. */
  function MentionCount(text: string): (r: nat)
    ensures r > 0 <==> AnyContains(Lower(text), Providers)
  {
    SumCounts(Lower(text), Providers)
  }

  /** `words.some(w => lower.includes(w))`. */
  predicate AnyContains(lower: string, words: seq<string>)
  {
    exists k :: 0 <= k < |words| && Contains(lower, words[k])
  }

  lemma AnyContainsCons(lower: string, words: seq<string>)
    requires words != []
    ensures AnyContains(lower, words) <==> Contains(lower, words[0]) || AnyContains(lower, words[1..])
  {
    if AnyContains(lower, words) && !Contains(lower, words[0]) {
      var k :| 0 <= k < |words| && Contains(lower, words[k]);
      assert words[1..][k - 1] == words[k];
    }
    if AnyContains(lower, words[1..]) {
      var k :| 0 <= k < |words[1..]| && Contains(lower, words[1..][k]);
      assert words[k + 1] == words[1..][k];
    }
  }

  predicate HasTableKeywords(text: string)
  {
    AnyContains(Lower(text), TableKeywords)
  }

  /** `detectDocumentType`: a comparison table when more than five
      supplier mentions or a table keyword occur, a broker's table for three
      to five mentions, a single contract otherwise. */
  function DetectDocumentType(text: string): (r: DocumentType)
    ensures r == ComparisonTable <==> MentionCount(text) > 5 || HasTableKeywords(text)
    ensures r == BrokerTable <==> 2 < MentionCount(text) <= 5 && !HasTableKeywords(text)
    ensures r == SingleContract <==> MentionCount(text) <= 2 && !HasTableKeywords(text)
  {
    if MentionCount(text) > 5 || HasTableKeywords(text) then ComparisonTable
    else if MentionCount(text) > 2 then BrokerTable
    else SingleContract
  }

  lemma {:induction false} SumCountsAppendMonotone(lower: string, more: string, names: seq<string>)
    requires NonEmptyWords(names)
    ensures SumCounts(lower + more, names) >= SumCounts(lower, names)
  {
    if names != [] {
      CountAppendMonotone(lower, more, names[0], 0);
      SumCountsAppendMonotone(lower, more, names[1..]);
    }
  }

  /** Text added to a document can only move it towards the multi-offer types:
      mentions and keywords already present stay present. */
  lemma DetectDocumentTypeMonotone(text: string, more: string)
    ensures DetectDocumentType(text).Rank() <= DetectDocumentType(text + more).Rank()
  {
    LowerAppend(text, more);
    SumCountsAppendMonotone(Lower(text), Lower(more), Providers);
    if HasTableKeywords(text) {
      var k :| 0 <= k < |TableKeywords| && Contains(Lower(text), TableKeywords[k]);
      IndexAppendMonotone(Lower(text), Lower(more), TableKeywords[k]);
    }
  }

  /** The classification ignores letter case. */
  lemma DetectDocumentTypeIgnoresCase(text: string)
    ensures DetectDocumentType(Lower(text)) == DetectDocumentType(text)
  {
    LowerIdempotent(text);
  }

  // ================================================================ prompt

  const PromptPreviewLength: nat := 8000

  /** The five extraction directives (prose kept short here: only their
      presence matters to the model). */
  const PromptDirectives: string :=
    "\nINSTRUCTIONS SPÉCIALISÉES:\n"
    + "1. FOURNISSEURS\n"
    + "2. PRIX en €/MWh (ct€/kWh: divise par 10)\n"
    + "3. TABLEAUX: chaque ligne\n"
    + "4. RECHERCHE dans tout le document\n"
    + "5. VALIDATION: pas de 0 partout\n"

  /** The multi-offer answer format: an object with an `offers` array. */
  const MultiOfferSchema: string :=
    "\nCe document contient PLUSIEURS offres. "
    + "Extrait TOUTES les lignes !\n"
    + "Format JSON attendu:\n{\n  \"offers\": [\n"
    + "    { \"fournisseur\": \"ENGIE\", "
    + "\"typeContrat\": \"Fixe 36 mois\", "
    + "\"prixMolecule\": 35.5, \"cee\": 8.2, "
    + "\"transport\": 8.69, \"abonnementF\": 6000, "
    + "\"distribution\": 5022.04, "
    + "\"transportAnn\": 1231.08, \"cta\": 304.52, "
    + "\"ticgn\": 17.16, "
    + "\"consommationReference\": 360 }\n"
    + "  ]\n}"

  /** The single-offer answer format: one flat offer object. */
  const SingleOfferSchema: string :=
    "\nFormat JSON pour offre unique:\n{\n"
    + "  \"fournisseur\": \"nom exact\", "
    + "\"typeContrat\": \"Fixe XX mois\", "
    + "\"prixMolecule\": 0, \"cee\": 0, "
    + "\"transport\": 8.69, \"abonnementF\": 0, "
    + "\"distribution\": 5022.04, "
    + "\"transportAnn\": 1231.08, \"cta\": 304.52, "
    + "\"ticgn\": 17.16, "
    + "\"consommationReference\": 0\n"
    + "}"

  const DocumentLabel: string := "\nDOCUMENT: "
  const TypeLabel: string := "\nTYPE DÉTECTÉ: "
  const ContentLabel: string := "\n\nCONTENU À ANALYSER:\n"

  function PromptHead(fileName: string, docType: DocumentType): string
  {
    DocumentLabel + fileName + TypeLabel + docType.Name() + ContentLabel
  }

  function Schema(docType: DocumentType): string
  {
    if docType == ComparisonTable || docType == BrokerTable then MultiOfferSchema else SingleOfferSchema
  }

  function PromptTail(docType: DocumentType): string
  {
    PromptDirectives + Schema(docType)
  }

  /** `buildAdvancedPrompt`: the first 8000 characters of the text come
      right after the header naming the file and the type. */
  function BuildAdvancedPrompt(text: string, fileName: string, docType: DocumentType): (r: string)
    ensures OccursAt(r, SliceTo(text, PromptPreviewLength), |PromptHead(fileName, docType)|)
  {
    var head, preview := PromptHead(fileName, docType), SliceTo(text, PromptPreviewLength);
    OccursAtEnd(head, preview);
    OccursAtAppend(head + preview, PromptTail(docType), preview, |head|);
    head + preview + PromptTail(docType)
  }

  predicate EndsWith(s: string, t: string)
  {
    |t| <= |s| && s[|s| - |t|..] == t
  }

  lemma SchemaEndings()
    ensures |MultiOfferSchema| >= 3 && MultiOfferSchema[|MultiOfferSchema| - 3] == ']'
    ensures |SingleOfferSchema| >= 3 && SingleOfferSchema[|SingleOfferSchema| - 3] == '0'
  {
  }

  lemma EndsWithAppend(a: string, b: string, c: string)
    requires EndsWith(b, c)
    ensures EndsWith(a + b, c)
  {
    assert (a + b)[|a + b| - |c|..] == b[|b| - |c|..];
  }

  /** A string cannot end with two texts whose third-to-last characters differ. */
  lemma EndsWithExclusive(p: string, x: string, y: string)
    requires |x| >= 3 && |y| >= 3 && x[|x| - 3] != y[|y| - 3]
    requires EndsWith(p, x)
    ensures !EndsWith(p, y)
  {
    assert p[|p| - 3] == x[|x| - 3];
  }

  /** The prompt carries the `offers` schema iff the document was classified as a table. */
  lemma PromptSchemaChoice(text: string, fileName: string, docType: DocumentType)
    ensures EndsWith(BuildAdvancedPrompt(text, fileName, docType), MultiOfferSchema)
        <==> docType != SingleContract
    ensures EndsWith(BuildAdvancedPrompt(text, fileName, docType), SingleOfferSchema)
        <==> docType == SingleContract
  {
    SchemaEndings();
    EndsWithOneOf(PromptHead(fileName, docType) + SliceTo(text, PromptPreviewLength),
      PromptDirectives, docType == ComparisonTable || docType == BrokerTable,
      MultiOfferSchema, SingleOfferSchema);
  }

  /** A text that ends with one of two endings, told apart by their
      third-to-last character, ends with the chosen one and not with the other. */
  lemma EndsWithOneOf(front: string, mid: string, first: bool, x: string, y: string)
    requires |x| >= 3 && |y| >= 3 && x[|x| - 3] != y[|y| - 3]
    ensures EndsWith(front + (mid + (if first then x else y)), x) <==> first
    ensures EndsWith(front + (mid + (if first then x else y)), y) <==> !first
  {
    var s := if first then x else y;
    EndsWithAppend(mid, s, s);
    EndsWithAppend(front, mid + s, s);
    if first {
      EndsWithExclusive(front + (mid + s), x, y);
    } else {
      EndsWithExclusive(front + (mid + s), y, x);
    }
  }

  lemma OccursAtEnd(a: string, b: string)
    ensures OccursAt(a + b, b, |a|)
  {
    assert (a + b)[|a|..] == b;
  }

  /** The prompt names the file and the detected type. */
  lemma PromptNamesFileAndType(text: string, fileName: string, docType: DocumentType)
    ensures OccursAt(BuildAdvancedPrompt(text, fileName, docType), fileName, |DocumentLabel|)
    ensures Contains(BuildAdvancedPrompt(text, fileName, docType), docType.Name())
  {
    var v, tail := SliceTo(text, PromptPreviewLength), PromptTail(docType);
    var s1 := DocumentLabel + fileName;
    OccursAtEnd(DocumentLabel, fileName);
    var s2 := s1 + TypeLabel;
    OccursAtAppend(s1, TypeLabel, fileName, |DocumentLabel|);
    var s3 := s2 + docType.Name();
    OccursAtAppend(s2, docType.Name(), fileName, |DocumentLabel|);
    OccursAtEnd(s2, docType.Name());
    var s4 := s3 + ContentLabel;
    OccursAtAppend(s3, ContentLabel, fileName, |DocumentLabel|);
    OccursAtAppend(s3, ContentLabel, docType.Name(), |s2|);
    var s5 := s4 + v;
    OccursAtAppend(s4, v, fileName, |DocumentLabel|);
    OccursAtAppend(s4, v, docType.Name(), |s2|);
    OccursAtAppend(s5, tail, fileName, |DocumentLabel|);
    OccursAtAppend(s5, tail, docType.Name(), |s2|);
    assert BuildAdvancedPrompt(text, fileName, docType) == s5 + tail;
  }

  lemma CancelMiddle(head: string, v1: string, v2: string, tail: string)
    requires head + v1 + tail == head + v2 + tail
    ensures v1 == v2
  {
    assert |v1| == |v2|;
    assert v1 == (head + v1 + tail)[|head|..|head| + |v1|];
    assert v2 == (head + v2 + tail)[|head|..|head| + |v2|];
  }

  /** Only the first 8000 characters of the text reach the prompt: two texts
      give the same prompt iff their first 8000 characters agree. */
  lemma PromptSeesOnlyPreview(text1: string, text2: string, fileName: string, docType: DocumentType)
    ensures BuildAdvancedPrompt(text1, fileName, docType) == BuildAdvancedPrompt(text2, fileName, docType)
        <==> SliceTo(text1, PromptPreviewLength) == SliceTo(text2, PromptPreviewLength)
  {
    var head, tail := PromptHead(fileName, docType), PromptTail(docType);
    var v1, v2 := SliceTo(text1, PromptPreviewLength), SliceTo(text2, PromptPreviewLength);
    if head + v1 + tail == head + v2 + tail {
      CancelMiddle(head, v1, v2, tail);
    }
  }

  /** However long the document, the prompt exceeds the file name by at most
      8000 characters of text plus the fixed frame. */
  lemma PromptLengthBounded(text: string, fileName: string, docType: DocumentType)
    ensures |BuildAdvancedPrompt(text, fileName, docType)| <= |fileName| + PromptPreviewLength + 1000
  {
    assert |PromptDirectives| < 300;
    assert |MultiOfferSchema| < 500 && |SingleOfferSchema| < 500;
  }

  // ================================================================ normaliser

  /** `parseFloatSafe`: a JSON number unchanged, a string cleaned and parsed
      (0 when it holds no number), anything else 0. */
  function ParseFloatSafe(v: Option<Json>): (r: real)
    ensures v.Some? && v.value.JNum? ==> r == v.value.n
    ensures v.Some? && v.value.JStr? ==> r >= 0.0
    ensures v.Some? && v.value.JStr? && ParseFloat(CleanNumeric(v.value.s)).Finite?
            ==> r == ParseFloat(CleanNumeric(v.value.s)).value
    ensures v.Some? && v.value.JStr? && !ParseFloat(CleanNumeric(v.value.s)).Finite? ==> r == 0.0
    ensures v.None? || !(v.value.JNum? || v.value.JStr?) ==> r == 0.0
  {
    match v
    case Some(JNum(n, _)) => n
    case Some(JStr(s)) =>
      ParseFloatOfNumericChars(CleanNumeric(s));
      (match ParseFloat(CleanNumeric(s))
       case Finite(x) => x
       case _ => 0.0)
    case _ => 0.0
  }

  /** A supplier or tariff string is read as its integer part, a comma and
      its decimals, whatever unit follows: "8,69 €/MWh" is 8.69. */
  lemma ParseFloatSafeReadsDecimalComma(a: nat, decimals: string, unit: string)
    requires forall k :: 0 <= k < |decimals| ==> IsDigit(decimals[k])
    requires forall k :: 0 <= k < |unit| ==> !IsNumericChar(unit[k])
    ensures ParseFloatSafe(Some(JStr(DecimalString(a) + "," + decimals + unit)))
         == DecimalValue(DecimalString(a), decimals)
  {
    var d := DecimalString(a);
    CleanNumericOfDecimal(d, decimals, unit);
    ParseFloatOfDecimal(d, decimals);
    ParseFloatSafeOfCleaned(d + "," + decimals + unit, DecimalValue(d, decimals));
  }

  /** A string whose cleaned form parses to `x` reads as `x`. */
  lemma ParseFloatSafeOfCleaned(s: string, x: real)
    requires ParseFloat(CleanNumeric(s)) == Finite(x)
    ensures ParseFloatSafe(Some(JStr(s))) == x
  {
  }

  /** Cleaning a decimal written with a comma and followed by a unit gives
      the decimal written with a period. */
  lemma CleanNumericOfDecimal(d: string, decimals: string, unit: string)
    requires forall k :: 0 <= k < |d| ==> IsDigit(d[k])
    requires forall k :: 0 <= k < |decimals| ==> IsDigit(decimals[k])
    requires forall k :: 0 <= k < |unit| ==> !IsNumericChar(unit[k])
    ensures CleanNumeric(d + "," + decimals + unit) == d + "." + decimals
  {
    KeepNumericOfDecimal(d, decimals, unit);
    assert ',' !in d by {
      assert forall k :: 0 <= k < |d| ==> IsDigit(d[k]);
    }
    ReplaceFirstAfter(d, decimals, ',', '.');
  }

  /** Keeping the numeric characters of a decimal followed by a unit drops the unit. */
  lemma KeepNumericOfDecimal(d: string, decimals: string, unit: string)
    requires forall k :: 0 <= k < |d| ==> IsDigit(d[k])
    requires forall k :: 0 <= k < |decimals| ==> IsDigit(decimals[k])
    requires forall k :: 0 <= k < |unit| ==> !IsNumericChar(unit[k])
    ensures KeepNumeric(d + "," + decimals + unit) == d + "," + decimals
  {
    var n := d + "," + decimals;
    KeepNumericAppend(n, unit);
    KeepNumericNone(unit);
    assert forall k :: 0 <= k < |n| ==> IsNumericChar(n[k]);
    KeepNumericIdentity(n);
  }

  /** `x || d` on a number that is never NaN. */
  function OrDefault(x: real, d: real): real
  {
    if x != 0.0 then x else d
  }

  /** A component as `validateOffer` computes it. */
  function NormalizedComponent(v: Json, f: NumericField): real
    requires !v.JNull?
  {
    OrDefault(ParseFloatSafe(Member(v, FieldName(f))), FieldDefault(f))
  }

  function ValidatedTariff(v: Json): (t: Tariff)
    requires !v.JNull?
    ensures forall f :: t.Get(f) == NormalizedComponent(v, f)
  {
    Tariff(
      NormalizedComponent(v, PrixMolecule), NormalizedComponent(v, Cee),
      NormalizedComponent(v, Transport), NormalizedComponent(v, AbonnementF),
      NormalizedComponent(v, Distribution), NormalizedComponent(v, TransportAnn),
      NormalizedComponent(v, Cta), NormalizedComponent(v, Ticgn))
  }

  /** `String(x || fallback)`. */
  function StringOr(x: Option<Json>, fallback: string): (r: string)
    ensures !Truthy(x) ==> r == fallback
    ensures x.Some? && x.value.JStr? && x.value.s != "" ==> r == x.value.s
  {
    if Truthy(x) then ToJsString(x.value) else fallback
  }

  const UnspecifiedContract: string := "Non spécifié"

  /** `validateOffer`; None stands for the `TypeError` of reading a property of `null`. */
  function ValidateOffer(v: Json): (r: Option<Offer>)
    ensures r.None? <==> v.JNull?
    ensures r.Some? ==> forall f :: r.value.tariff.Get(f) != 0.0 || FieldDefault(f) == 0.0
    ensures r.Some? ==> Trim(r.value.fournisseur) == r.value.fournisseur
    ensures r.Some? ==> Trim(r.value.typeContrat) == r.value.typeContrat
    ensures r.Some? ==> r.value.consommationReference.Some?
  {
    if v.JNull? then None
    else
      var name := StringOr(Member(v, "fournisseur"), UnknownSupplier);
      var contract := StringOr(Member(v, "typeContrat"), UnspecifiedContract);
      TrimIdempotent(name);
      TrimIdempotent(contract);
      Some(Offer(
        Trim(name), Trim(contract), ValidatedTariff(v),
        Some(ParseFloatSafe(Member(v, "consommationReference")))))
  }

  /** An object without any numeric field gets the default tariff. */
  lemma ValidatedTariffOfEmptyObject()
    ensures ValidatedTariff(JObj(map[])) == DefaultTariff
  {
    TariffExtensional(ValidatedTariff(JObj(map[])), DefaultTariff);
  }

  lemma DefaultNamesUnpadded()
    ensures Trim(UnknownSupplier) == UnknownSupplier
    ensures Trim(UnspecifiedContract) == UnspecifiedContract
  {
    TrimUnpadded(UnknownSupplier);
    TrimUnpadded(UnspecifiedContract);
  }

  /** `validateOffer({})` is the offer of defaults, with reference consumption 0. */
  lemma ValidateEmptyObject()
    ensures ValidateOffer(JObj(map[]))
         == Some(Offer(UnknownSupplier, UnspecifiedContract, DefaultTariff, Some(0.0)))
  {
    var v := JObj(map[]);
    DefaultNamesUnpadded();
    ValidatedTariffOfEmptyObject();
    assert Member(v, "fournisseur") == None;
    assert Member(v, "typeContrat") == None;
    assert Member(v, "consommationReference") == None;
  }

  /** A white-space supplier name is trimmed to "" rather than replaced by the
      "unknown supplier" sentinel, so such an offer passes the endpoint's filter. */
  lemma ValidateBlankSupplier(fields: map<string, Json>, blank: string)
    requires "fournisseur" in fields && fields["fournisseur"] == JStr(blank)
    requires blank != [] && forall k :: 0 <= k < |blank| ==> IsJsSpace(blank[k])
    ensures ValidateOffer(JObj(fields)).Some?
    ensures ValidateOffer(JObj(fields)).value.fournisseur == ""
    ensures Known(ValidateOffer(JObj(fields)).value)
  {
    var v := JObj(fields);
    assert StringOr(Member(v, "fournisseur"), UnknownSupplier) == blank;
    TrimEmptyIffAllSpace(blank);
  }

  /** An offer written back as JSON, numbers with an unused rendering. */
  function OfferJson(o: Offer): (j: Json)
    ensures j.JObj?
    ensures forall f :: Member(j, FieldName(f)) == Some(JNum(o.tariff.Get(f), ""))
    ensures Member(j, "fournisseur") == Some(JStr(o.fournisseur))
    ensures Member(j, "typeContrat") == Some(JStr(o.typeContrat))
    ensures Member(j, "consommationReference").Some? <==> o.consommationReference.Some?
    ensures o.consommationReference.Some? ==>
              Member(j, "consommationReference") == Some(JNum(o.consommationReference.value, ""))
  {
    var t := o.tariff;
    var fields := map[
      "fournisseur" := JStr(o.fournisseur), "typeContrat" := JStr(o.typeContrat),
      "prixMolecule" := JNum(t.prixMolecule, ""), "cee" := JNum(t.cee, ""),
      "transport" := JNum(t.transport, ""), "abonnementF" := JNum(t.abonnementF, ""),
      "distribution" := JNum(t.distribution, ""), "transportAnn" := JNum(t.transportAnn, ""),
      "cta" := JNum(t.cta, ""), "ticgn" := JNum(t.ticgn, "")];
    match o.consommationReference
    case None => JObj(fields)
    case Some(c) => JObj(fields["consommationReference" := JNum(c, "")])
  }

  /** A tariff whose zero components are exactly where the default is 0
      survives being written back and validated again. */
  lemma ValidatedTariffOfJson(o: Offer)
    requires forall f :: o.tariff.Get(f) != 0.0 || FieldDefault(f) == 0.0
    ensures ValidatedTariff(OfferJson(o)) == o.tariff
  {
    var j := OfferJson(o);
    forall f ensures NormalizedComponent(j, f) == o.tariff.Get(f) {
      assert Member(j, FieldName(f)) == Some(JNum(o.tariff.Get(f), ""));
    }
    TariffExtensional(ValidatedTariff(j), o.tariff);
  }

  /** Every offer `validateOffer` can produce with non-empty names is a fixed
      point: written back as JSON and validated again, it comes back unchanged. */
  lemma ValidateOfferJson(o: Offer)
    requires o.fournisseur != "" && Trim(o.fournisseur) == o.fournisseur
    requires o.typeContrat != "" && Trim(o.typeContrat) == o.typeContrat
    requires forall f :: o.tariff.Get(f) != 0.0 || FieldDefault(f) == 0.0
    requires o.consommationReference.Some?
    ensures ValidateOffer(OfferJson(o)) == Some(o)
  {
    var j := OfferJson(o);
    ValidatedTariffOfJson(o);
    assert StringOr(Member(j, "fournisseur"), UnknownSupplier) == o.fournisseur;
    assert StringOr(Member(j, "typeContrat"), UnspecifiedContract) == o.typeContrat;
    assert ParseFloatSafe(Member(j, "consommationReference")) == o.consommationReference.value;
  }

  /** Validation is idempotent on its own output as long as it left both names non-empty. */
  lemma ValidateOfferIdempotent(v: Json)
    requires ValidateOffer(v).Some?
    requires ValidateOffer(v).value.fournisseur != "" && ValidateOffer(v).value.typeContrat != ""
    ensures ValidateOffer(OfferJson(ValidateOffer(v).value)) == ValidateOffer(v)
  {
    ValidateOfferJson(ValidateOffer(v).value);
  }

  // ================================================================ handler

  /** The offers of a supplier the normaliser could not name are dropped. */
  predicate Known(o: Offer)
  {
    o.fournisseur != UnknownSupplier
  }

  /** The candidate offers of an answer that is not `null`: its `offers`
      property when that is an array, the answer itself when it names a
      supplier, nothing otherwise. */
  function SelectOffers(parsed: Json): (r: seq<Json>)
    requires !parsed.JNull?
    ensures Member(parsed, "offers").Some? && Member(parsed, "offers").value.JArr?
            ==> r == Member(parsed, "offers").value.items
    ensures !(Member(parsed, "offers").Some? && Member(parsed, "offers").value.JArr?)
            ==> |r| <= 1 && (r == [parsed] <==> Truthy(Member(parsed, "fournisseur")))
  {
    match Member(parsed, "offers")
    case Some(JArr(items)) => items
    case _ => if Truthy(Member(parsed, "fournisseur")) then [parsed] else []
  }

  /** `items.map(validateOffer)`; None when an element is `null`, on which
      the mapping throws. */
  function ValidateAll(items: seq<Json>): (r: Option<seq<Offer>>)
    ensures r.Some? <==> forall i :: 0 <= i < |items| ==> !items[i].JNull?
    ensures r.Some? ==> |r.value| == |items|
    ensures r.Some? ==> forall i :: 0 <= i < |items| ==> ValidateOffer(items[i]) == Some(r.value[i])
  {
    Seqs.MapAll(items, ValidateOffer)
  }

  /** The answer is handled by the fallback: `JSON.parse` threw, the answer
      is `null`, or one of its candidate offers is `null`. */
  predicate FallsBack(parsed: Option<Json>)
    ensures FallsBack(parsed) <==>
              || parsed.None? || parsed.value.JNull?
              || exists i :: 0 <= i < |SelectOffers(parsed.value)| && SelectOffers(parsed.value)[i].JNull?
  {
    parsed.None? || parsed.value.JNull? || ValidateAll(SelectOffers(parsed.value)).None?
  }

  /** What the OpenAI call gives back. */
  datatype CompletionReply =
      /** `response.ok` is false; `message` is the error message of the body or the status text. */
    | NotOk(status: int, message: string)
      /** The body has no `choices[0].message.content`. */
    | NoContent
      /** The content, as `JSON.parse` reads it (None: it threw). */
    | Content(parsed: Option<Json>)

  datatype Response =
    | Failed(status: int, message: string)
      /** A 200 answer; `originalLength` is absent from a fallback answer, which
          carries the fallback warning instead. */
    | Extracted(
        offers: seq<Offer>, fileName: string, documentType: string,
        extractedOffers: nat, originalLength: Option<nat>, fallbackWarning: bool)

  const FallbackLabel: string := "fallback"

  /** On a well-formed answer the endpoint keeps the validated candidates
      with a known supplier, in the order of the answer, and no others. */
  function KeptOffers(parsed: Json): (r: seq<Offer>)
    requires !FallsBack(Some(parsed))
    ensures |r| <= |SelectOffers(parsed)|
    ensures Seqs.IsSubsequence(r, ValidateAll(SelectOffers(parsed)).value)
    ensures forall o :: o in r <==> o in ValidateAll(SelectOffers(parsed)).value && Known(o)
  {
    var validated := ValidateAll(SelectOffers(parsed)).value;
    Seqs.FilterIsSubsequence(validated, Known);
    Seqs.Filter(validated, Known)
  }

  /** The handler after authentication, for a request with body `text` and
      `fileName` ("" stands for a missing text). */
  function Handle(text: string, fileName: string, apiKeyConfigured: bool, reply: CompletionReply): (r: Response)
    ensures text == "" ==> r == Failed(400, "Texte manquant")
    ensures r.Extracted? ==> r.fileName == fileName && r.extractedOffers == |r.offers|
    ensures r.Extracted? ==> forall i :: 0 <= i < |r.offers| ==> Known(r.offers[i])
    ensures r.Extracted? <==> text != "" && apiKeyConfigured && reply.Content?
    ensures r.Extracted? && r.fallbackWarning <==> r.Extracted? && FallsBack(reply.parsed)
    ensures r.Extracted? && r.fallbackWarning ==>
              r.offers == PerformFallbackExtraction(text) && |r.offers| >= 1
              && r.documentType == FallbackLabel && r.originalLength.None?
    ensures r.Extracted? && !r.fallbackWarning ==>
              r.offers == KeptOffers(reply.parsed.value)
              && r.documentType == DetectDocumentType(text).Name()
              && r.originalLength == Some(|SelectOffers(reply.parsed.value)|)
              && r.extractedOffers <= r.originalLength.value
  {
    if text == "" then Failed(400, "Texte manquant")
    else if !apiKeyConfigured then Failed(500, "Clé API OpenAI non configurée sur le serveur")
    else
      match reply
      case NotOk(status, message) => Failed(status, "Erreur OpenAI: " + message)
      case NoContent => Failed(500, "Erreur interne du serveur")
      case Content(parsed) => Answered(text, fileName, parsed)
  }

  /** The 200 answer built from the parsed completion: the fallback offers
      when the completion is unusable, the kept offers otherwise. */
  function Answered(text: string, fileName: string, parsed: Option<Json>): (r: Response)
    ensures r.Extracted? && r.fileName == fileName && r.extractedOffers == |r.offers|
    ensures forall i :: 0 <= i < |r.offers| ==> Known(r.offers[i])
    ensures r.fallbackWarning <==> FallsBack(parsed)
    ensures r.fallbackWarning ==>
              r.offers == PerformFallbackExtraction(text) && |r.offers| >= 1
              && r.documentType == FallbackLabel && r.originalLength.None?
    ensures !r.fallbackWarning ==>
              r.offers == KeptOffers(parsed.value)
              && r.documentType == DetectDocumentType(text).Name()
              && r.originalLength == Some(|SelectOffers(parsed.value)|)
              && r.extractedOffers <= r.originalLength.value
  {
    if FallsBack(parsed) then
      var offers := PerformFallbackExtraction(text);
      Extracted(offers, fileName, FallbackLabel, |offers|, None, true)
    else
      var offers := KeptOffers(parsed.value);
      assert forall i :: 0 <= i < |offers| ==> Known(offers[i]) by {
        forall i | 0 <= i < |offers| ensures Known(offers[i]) { assert offers[i] in offers; }
      }
      Extracted(offers, fileName, DetectDocumentType(text).Name(), |offers|, Some(|SelectOffers(parsed.value)|), false)
  }

  // ================================================================ fallback

  /** The keys searched in the lower-cased text and the supplier each one names. */
  const ProviderMap: seq<(string, string)> := [
    ("engie", "ENGIE"), ("totalenergies", "TotalEnergies"), ("total energies", "TotalEnergies"),
    ("edf", "EDF"), ("ekwateur", "Ekwateur"), ("vattenfall", "Vattenfall"),
    ("eni", "ENI"), ("dyneff", "Dyneff")]

  /** The entries of the map whose key occurs in the lower-cased text, in map order. */
  function FoundProviders(text: string): (r: seq<(string, string)>)
    ensures |r| <= |ProviderMap|
    ensures forall e :: e in r <==> e in ProviderMap && Contains(Lower(text), e.0)
  {
    var lower := Lower(text);
    Seqs.Filter(ProviderMap, (e: (string, string)) => Contains(lower, e.0))
  }

  /** The single offer returned when no supplier is recognised. */
  const UnidentifiedOffer: Offer :=
    Offer("Document analysé", "À vérifier manuellement", DefaultTariff, None)

  /** The offer built for a recognised supplier: its price read near the
      key, a CEE of 8.5 and every other component at its default. */
  function FallbackOffer(text: string, entry: (string, string)): (o: Offer)
    ensures o.fournisseur == entry.1 && o.consommationReference.None?
    ensures o.tariff == DefaultTariff.With(PrixMolecule, PriceNearProvider(text, entry.0, AsWritten)).With(Cee, 8.5)
  {
    var t := DefaultTariff.(prixMolecule := PriceNearProvider(text, entry.0, AsWritten), cee := 8.5);
    TariffExtensional(t, DefaultTariff.With(PrixMolecule, PriceNearProvider(text, entry.0, AsWritten)).With(Cee, 8.5));
    Offer(entry.1, "À vérifier", t, None)
  }

  /** Every supplier of the map differs from the "unknown supplier" sentinel. */
  lemma ProviderNamesKnown()
    ensures forall e :: e in ProviderMap ==> e.1 != UnknownSupplier
  {
    assert UnknownSupplier[0] == 'F';
    forall e | e in ProviderMap
      ensures e.1 != UnknownSupplier
    {
      assert e.1[0] != 'F';
    }
  }

  /** `performFallbackExtraction`. */
  function PerformFallbackExtraction(text: string): (r: seq<Offer>)
    ensures 1 <= |r| <= |ProviderMap|
    ensures forall i :: 0 <= i < |r| ==> Known(r[i])
    ensures FoundProviders(text) != [] ==>
      |r| == |FoundProviders(text)| &&
      forall i :: 0 <= i < |r| ==> r[i].fournisseur == FoundProviders(text)[i].1
  {
    var found := FoundProviders(text);
    if found == [] then [UnidentifiedOffer]
    else
      ProviderNamesKnown();
      assert forall i :: 0 <= i < |found| ==> found[i].1 != UnknownSupplier by {
        assert forall i :: 0 <= i < |found| ==> found[i] in ProviderMap;
      }
      seq(|found|, i requires 0 <= i < |found| => FallbackOffer(text, found[i]))
  }

  /** The fallback answers with the placeholder offer exactly when no key
      occurs in the text, whatever its case. */
  lemma FallbackPlaceholderIff(text: string)
    ensures PerformFallbackExtraction(text) == [UnidentifiedOffer]
        <==> forall e :: e in ProviderMap ==> !Contains(Lower(text), e.0)
  {
    var found := FoundProviders(text);
    if found != [] {
      assert found[0] in ProviderMap;
      assert PerformFallbackExtraction(text)[0].fournisseur == found[0].1;
    }
  }

  /** Otherwise it names exactly the suppliers one of whose keys occurs in the text. */
  lemma FallbackNamesMentionedSuppliers(text: string, name: string)
    requires exists e :: e in ProviderMap && Contains(Lower(text), e.0)
    ensures (exists o :: o in PerformFallbackExtraction(text) && o.fournisseur == name)
        <==> exists e :: e in ProviderMap && e.1 == name && Contains(Lower(text), e.0)
  {
    var found := FoundProviders(text);
    assert found != [] by {
      var e0 :| e0 in ProviderMap && Contains(Lower(text), e0.0);
      assert e0 in found;
    }
    NamesOfEntries(found, PerformFallbackExtraction(text), name);
  }

  /** Offers built one per entry carry exactly the entries' names. */
  lemma NamesOfEntries(found: seq<(string, string)>, r: seq<Offer>, name: string)
    requires |r| == |found|
    requires forall i :: 0 <= i < |r| ==> r[i].fournisseur == found[i].1
    ensures (exists o :: o in r && o.fournisseur == name) <==> exists e :: e in found && e.1 == name
  {
    if exists o :: o in r && o.fournisseur == name {
      var o :| o in r && o.fournisseur == name;
      var i := Seqs.PositionOf(r, o);
      assert found[i] in found;
    }
    if exists e :: e in found && e.1 == name {
      var e :| e in found && e.1 == name;
      var i := Seqs.PositionOf(found, e);
      assert r[i] in r;
    }
  }

  // ================================================================ price near a supplier

  /** The three price expressions tried in turn, all global and case-insensitive. */
  datatype PricePattern = PerMWh | CentsPerKWh | CentimesPerKWh
  {
    /** The source text of the regular expression. */
    function Source(): string
    {
      match this
      case PerMWh => "(\\d+[,.]?\\d*)\\s*€\\/MWh"
      case CentsPerKWh => "(\\d+[,.]?\\d*)\\s*ct?€\\/kWh"
      case CentimesPerKWh => "(\\d+[,.]?\\d*)\\s*centimes?\\/kWh"
    }

    /** The spellings of the unit, lower case, in the order the expression tries them. */
    function Units(): seq<string>
    {
      match this
      case PerMWh => ["€/mwh"]
      case CentsPerKWh => ["ct€/kwh", "c€/kwh"]
      case CentimesPerKWh => ["centimes/kwh", "centime/kwh"]
    }

    /** The price is in cents per kWh when the source mentions "ct" or "centimes". */
    predicate InCents()
    {
      Contains(Source(), "ct") || Contains(Source(), "centimes")
    }
  }

  const PricePatterns: seq<PricePattern> := [PerMWh, CentsPerKWh, CentimesPerKWh]

  /** The first pattern reads €/MWh, the other two cents per kWh. */
  lemma PatternUnits()
    ensures !PerMWh.InCents() && CentsPerKWh.InCents() && CentimesPerKWh.InCents()
  {
    var m := PerMWh.Source();
    assert OccursAt(CentsPerKWh.Source(), "ct", 16);
    assert OccursAt(CentimesPerKWh.Source(), "centimes", 16);
    assert 'c' !in m;
    forall i | 0 <= i && i + 2 <= |m| ensures !OccursAt(m, "ct", i) {
      assert m[i..i + 2][0] == m[i];
    }
    forall i | 0 <= i && i + 8 <= |m| ensures !OccursAt(m, "centimes", i) {
      assert m[i..i + 8][0] == m[i];
    }
  }

  /** The end of the greedy `\d+[,.]?\d*` that starts at the digit `s[p]`.
      Backtracking cannot end it elsewhere and still reach the unit: a shorter
      number leaves a digit or a separator next, which neither `\s` nor a
      unit starts with. */
  function NumberEnd(s: string, p: nat): (e: nat)
    requires p < |s| && IsDigit(s[p])
    ensures p < e <= |s|
    ensures forall k :: p <= k < e ==> IsNumericChar(s[k])
  {
    var a := p + DigitRun(s, p);
    if a < |s| && (s[a] == ',' || s[a] == '.') then a + 1 + DigitRun(s, a + 1) else a
  }

  /** The end of the run of white space (`\s*`) that starts at `i`. */
  function SkipSpaces(s: string, i: nat): (j: nat)
    requires i <= |s|
    ensures i <= j <= |s|
    ensures forall k :: i <= k < j ==> IsJsSpace(s[k])
    ensures j == |s| || !IsJsSpace(s[j])
    decreases |s| - i
  {
    if i < |s| && IsJsSpace(s[i]) then SkipSpaces(s, i + 1) else i
  }

  /** The end of the first spelling in `units` that occurs at `i`, ignoring case. */
  function UnitEnd(s: string, i: nat, units: seq<string>): (r: Option<nat>)
    requires i <= |s|
    ensures r.Some? ==> i <= r.value <= |s|
  {
    if units == [] then None
    else if i + |units[0]| <= |s| && Lower(s[i..i + |units[0]|]) == units[0] then Some(i + |units[0]|)
    else UnitEnd(s, i, units[1..])
  }

  /** The end of the match that starts at `p` of a pattern whose unit is
      spelt one of `units`, if there is one. */
  function MatchEnd(s: string, p: nat, units: seq<string>): (r: Option<nat>)
    ensures r.Some? ==> p < r.value <= |s| && IsDigit(s[p])
  {
    if p < |s| && IsDigit(s[p]) then UnitEnd(s, SkipSpaces(s, NumberEnd(s, p)), units)
    else None
  }

  /** The leftmost match at or after `from`, as its start and end. */
  function FirstMatch(s: string, units: seq<string>, from: nat): (r: Option<(nat, nat)>)
    ensures r.Some? ==> from <= r.value.0 && MatchEnd(s, r.value.0, units) == Some(r.value.1)
    ensures r.Some? ==> forall q :: from <= q < r.value.0 ==> MatchEnd(s, q, units).None?
    ensures r.None? ==> forall q :: from <= q ==> MatchEnd(s, q, units).None?
    decreases |s| - from
  {
    if from >= |s| then
      assert forall q :: from <= q ==> MatchEnd(s, q, units).None?;
      None
    else
      var m := MatchEnd(s, from, units);
      if m.Some? then Some((from, m.value))
      else
        FirstMatch(s, units, from + 1)
  }

  /** A price in ct€/kWh in €/MWh: a cent per kWh is ten euros per MWh. */
  function CentsToEurosPerMWh(x: real): (r: real)
    ensures r / 1000.0 == x / 100.0
  {
    x * 10.0
  }

  /** The conversion the extractor applies to a price in ct€/kWh. */
  function CentsToEurosPerMWhAsWritten(x: real): real
  {
    x / 10.0
  }

  /** The applied conversion is a hundred times too small: 3.5 ct€/kWh, i.e.
      35 €/MWh, comes out as 0.35. */
  lemma CentsConversionAsWrittenIsOff(x: real)
    ensures CentsToEurosPerMWhAsWritten(x) * 100.0 == CentsToEurosPerMWh(x)
    ensures CentsToEurosPerMWhAsWritten(3.5) == 0.35 && CentsToEurosPerMWh(3.5) == 35.0
  {
  }

  /** How a number matched in ct€/kWh or centimes/kWh is brought to €/MWh:
      divided by 10 as the extractor does, or multiplied by 10 as its
      comment ("convertir en €/MWh") intends. */
  datatype CentsReading = AsWritten | Intended
  {
    function FromCents(x: real): real
    {
      if this == AsWritten then CentsToEurosPerMWhAsWritten(x) else CentsToEurosPerMWh(x)
    }
  }

  /** A number of cents per kWh is divided by 10 as written, multiplied by 10 as intended. */
  lemma CentsReadings(x: real)
    ensures AsWritten.FromCents(x) == x / 10.0 && Intended.FromCents(x) == x * 10.0
  {
  }

  /** The price `pat` yields in `window`: its leftmost match, stripped of
      everything but digits, commas and periods, first comma read as a
      decimal point, in €/MWh. None when there is no match or the match does
      not parse. */
  function PatternPrice(window: string, pat: PricePattern, reading: CentsReading): (r: Option<real>)
    ensures r.Some? ==> r.value >= 0.0
  {
    match FirstMatch(window, pat.Units(), 0)
    case None => None
    case Some((p, e)) =>
      var raw := ParseFloat(CleanNumeric(window[p..e]));
      ParseFloatOfNumericChars(CleanNumeric(window[p..e]));
      match raw
      case Finite(x) => Some(if pat.InCents() then reading.FromCents(x) else x)
      case _ => None
  }

  /** The price of the first pattern in `patterns` that yields one, 0 if none does. */
  function PriceFrom(window: string, patterns: seq<PricePattern>, reading: CentsReading): (r: real)
    ensures r >= 0.0
  {
    if patterns == [] then 0.0
    else match PatternPrice(window, patterns[0], reading)
      case Some(x) => x
      case None => PriceFrom(window, patterns[1..], reading)
  }

  /** `text.substring(max(0, i - 200), i + 300)`. */
  function PriceWindow(text: string, i: nat): (w: string)
    requires i <= |text|
    ensures |w| <= 500
  {
    var start := if i >= 200 then i - 200 else 0;
    var end := if i + 300 <= |text| then i + 300 else |text|;
    text[start..end]
  }

  /** `extractPriceNearProvider`: the price read around the first
      occurrence of `provider` in the lower-cased text, 0 when it is absent. */
  function PriceNearProvider(text: string, provider: string, reading: CentsReading): (r: real)
    ensures r >= 0.0
  {
    var i := IndexOf(Lower(text), provider);
    if i == -1 then 0.0 else PriceFrom(PriceWindow(text, i), PricePatterns, reading)
  }

  /** The patterns tried in turn, stopping at the first that yields a price,
      a cents price divided by 10 as `extractPriceNearProvider` does. */
  method ExtractPriceNearProvider(text: string, provider: string) returns (price: real)
    ensures price == PriceNearProvider(text, provider, AsWritten)
    ensures price >= 0.0
  {
    var i := IndexOf(Lower(text), provider);
    if i == -1 {
      return 0.0;
    }
    var window := PriceWindow(text, i);
    var patterns := PricePatterns;
    for k := 0 to |patterns|
      invariant PriceFrom(window, patterns[k..], AsWritten) == PriceFrom(window, patterns, AsWritten)
    {
      assert patterns[k..][1..] == patterns[k + 1..];
      var found := PatternPrice(window, patterns[k], AsWritten);
      if found.Some? {
        return found.value;
      }
    }
    return 0.0;
  }

  /** A pattern's price is the number `parseFloatSafe` reads from its
      leftmost match: as is for €/MWh; for the two cents patterns a tenth of
      it as written, ten times it as intended. */
  lemma PatternPriceValue(window: string, pat: PricePattern, reading: CentsReading, p: nat, e: nat)
    requires FirstMatch(window, pat.Units(), 0) == Some((p, e))
    ensures p < e <= |window|
    ensures var x := ParseFloatSafe(Some(JStr(window[p..e])));
            PatternPrice(window, pat, reading) == Some(if pat == PerMWh then x else reading.FromCents(x))
  {
    MatchAlwaysParses(window, pat);
    var x := ParseFloat(CleanNumeric(window[p..e])).value;
    ParseFloatSafeOfCleaned(window[p..e], x);
    assert ParseFloat(CleanNumeric(window[p..e])) == Finite(x);
    assert PatternPrice(window, pat, reading) == Some(if pat.InCents() then reading.FromCents(x) else x);
    PatternUnits();
  }

  /** The two readings stop at the same pattern: the price is the same when
      it was quoted in €/MWh and a hundred times larger as intended when it
      was quoted in cents. */
  lemma {:induction false} IntendedPriceIsHundredfold(window: string, patterns: seq<PricePattern>)
    ensures || PriceFrom(window, patterns, Intended) == PriceFrom(window, patterns, AsWritten)
            || PriceFrom(window, patterns, Intended) == 100.0 * PriceFrom(window, patterns, AsWritten)
    ensures PriceFrom(window, patterns, Intended) == 0.0 <==> PriceFrom(window, patterns, AsWritten) == 0.0
  {
    if patterns != [] {
      var pat := patterns[0];
      if FirstMatch(window, pat.Units(), 0).Some? {
        var m := FirstMatch(window, pat.Units(), 0).value;
        PatternPriceValue(window, pat, AsWritten, m.0, m.1);
        PatternPriceValue(window, pat, Intended, m.0, m.1);
        CentsReadings(ParseFloatSafe(Some(JStr(window[m.0..m.1]))));
      } else {
        IntendedPriceIsHundredfold(window, patterns[1..]);
      }
    }
  }

  /** A supplier's mention followed by its price in cents per kWh. */
  const CentsQuote: string := "ENGIE " + "3,5 c€/kWh"

  /** The leftmost match is the one at `p` when nothing matches before it. */
  lemma FirstMatchAt(s: string, units: seq<string>, p: nat, e: nat)
    requires MatchEnd(s, p, units) == Some(e)
    requires forall q: nat :: q < p ==> MatchEnd(s, q, units).None?
    ensures FirstMatch(s, units, 0) == Some((p, e))
  {
  }

  /** The supplier's key is found at the start of the quote, whose window is the whole quote. */
  lemma CentsQuoteWindow()
    ensures IndexOf(Lower(CentsQuote), "engie") == 0 && PriceWindow(CentsQuote, 0) == CentsQuote
  {
    var t := CentsQuote;
    var lt := "engie " + "3,5 c€/kwh";
    assert Lower(t) == lt by {
      forall i | 0 <= i < |t| ensures LowerChar(t[i]) == lt[i] { }
    }
    assert lt[0..5] == "engie";
  }

  /** Both amounts of the quote end at 9, and its unit starts at 10. */
  lemma CentsQuoteNumbers()
    ensures 9 < |CentsQuote| && IsDigit(CentsQuote[6]) && IsDigit(CentsQuote[8])
    ensures NumberEnd(CentsQuote, 6) == 9 && NumberEnd(CentsQuote, 8) == 9
    ensures SkipSpaces(CentsQuote, 9) == 10
    ensures forall q: nat :: q < |CentsQuote| && IsDigit(CentsQuote[q]) ==> q == 6 || q == 8
  {
    var t := CentsQuote;
    DigitRunOver(t, 6, 1);
    DigitRunOver(t, 8, 1);
  }

  /** The unit of the quote is spelt "c€/kWh", not "€/MWh". */
  lemma CentsQuoteUnit()
    ensures UnitEnd(CentsQuote, 10, PerMWh.Units()).None?
    ensures UnitEnd(CentsQuote, 10, CentsPerKWh.Units()) == Some(16)
  {
    var t := CentsQuote;
    assert Lower(t[10..15])[0] == 'c';
    assert Lower(t[10..16]) == "c€/kwh";
  }

  /** Nothing in the quote reads as €/MWh: after either digit comes " c€/kWh". */
  lemma CentsQuoteNoMWh()
    ensures FirstMatch(CentsQuote, PerMWh.Units(), 0).None?
  {
    CentsQuoteNumbers();
    CentsQuoteUnit();
    forall q: nat ensures MatchEnd(CentsQuote, q, PerMWh.Units()).None? {
    }
  }

  /** "3,5 c€/kWh" is the first amount in cents of the quote, at positions 6 to 16. */
  lemma CentsQuoteCents()
    ensures FirstMatch(CentsQuote, CentsPerKWh.Units(), 0) == Some((6, 16))
  {
    CentsQuoteNumbers();
    CentsQuoteUnit();
    FirstMatchAt(CentsQuote, CentsPerKWh.Units(), 6, 16);
  }

  lemma CentsQuoteAmount()
    ensures CentsQuote[6..16] == DecimalString(3) + "," + DecimalString(5) + " c€/kWh"
  {
  }

  /** Where no amount is in €/MWh and the first amount in cents spans `p`
      to `e`, the price is that amount brought to €/MWh. */
  lemma PriceOfCentsAmount(window: string, reading: CentsReading, p: nat, e: nat)
    requires FirstMatch(window, PerMWh.Units(), 0).None?
    requires FirstMatch(window, CentsPerKWh.Units(), 0) == Some((p, e))
    ensures p < e <= |window|
    ensures PriceFrom(window, PricePatterns, reading) == reading.FromCents(ParseFloatSafe(Some(JStr(window[p..e]))))
  {
    PatternPriceValue(window, CentsPerKWh, reading, p, e);
    MatchAlwaysParses(window, PerMWh);
    var rest := PricePatterns[1..];
    assert rest == [CentsPerKWh, CentimesPerKWh];
    assert PriceFrom(window, PricePatterns, reading) == PriceFrom(window, rest, reading);
  }

  /** "3,5" followed by a unit reads as 3.5. */
  lemma ThreeAndAHalf()
    ensures ParseFloatSafe(Some(JStr(DecimalString(3) + "," + DecimalString(5) + " c€/kWh"))) == 3.5
  {
    var three, five := DecimalString(3), DecimalString(5);
    ParseFloatSafeReadsDecimalComma(3, five, " c€/kWh");
    DecimalStringValue(3);
    DecimalStringValue(5);
    ThreeAndAHalfValue(three, five);
  }

  lemma ThreeAndAHalfValue(d: string, f: string)
    requires forall k :: 0 <= k < |d| ==> IsDigit(d[k])
    requires forall k :: 0 <= k < |f| ==> IsDigit(f[k])
    requires DigitsValue(d) == 3 && DigitsValue(f) == 5 && |f| == 1
    ensures DecimalValue(d, f) == 3.5
  {
    assert Pow10(1) == 10;
  }

  /** A supplier quoted at 3,5 c€/kWh, i.e. 35 €/MWh, gets a price of 0.35
      as the extractor is written and 35 as intended. */
  lemma CentsPriceReadHundredfoldLow()
    ensures PriceNearProvider(CentsQuote, "engie", AsWritten) == 0.35
    ensures PriceNearProvider(CentsQuote, "engie", Intended) == 35.0
  {
    CentsQuoteWindow();
    CentsQuoteNoMWh();
    CentsQuoteCents();
    CentsQuoteAmount();
    ThreeAndAHalf();
    CentsReadings(3.5);
    PriceOfCentsAmount(CentsQuote, AsWritten, 6, 16);
    PriceOfCentsAmount(CentsQuote, Intended, 6, 16);
  }

  /** A match always parses: it starts with a digit and keeps only digits and
      separators, so the `isNaN` guard never skips a pattern. */
  lemma MatchAlwaysParses(window: string, pat: PricePattern)
    ensures FirstMatch(window, pat.Units(), 0).Some? <==> PatternPrice(window, pat, AsWritten).Some?
    ensures FirstMatch(window, pat.Units(), 0).Some? <==> PatternPrice(window, pat, Intended).Some?
  {
    match FirstMatch(window, pat.Units(), 0)
    case None =>
    case Some((p, e)) =>
      var m := window[p..e];
      assert m[0] == window[p];
      KeepNumericHead(m);
      ParseFloatOfNumericChars(CleanNumeric(m));
  }

  /** Text more than 300 characters past the supplier's first mention does
      not change the price read for it. */
  lemma PriceIgnoresDistantText(text: string, more: string, provider: string)
    requires IndexOf(Lower(text), provider) >= 0
    requires IndexOf(Lower(text), provider) + 300 <= |text|
    ensures PriceNearProvider(text + more, provider, AsWritten) == PriceNearProvider(text, provider, AsWritten)
    ensures PriceNearProvider(text + more, provider, Intended) == PriceNearProvider(text, provider, Intended)
  {
    LowerAppend(text, more);
    IndexFromAppend(Lower(text), Lower(more), provider, 0);
    var i := IndexOf(Lower(text), provider);
    assert IndexOf(Lower(text + more), provider) == i;
    var start := if i >= 200 then i - 200 else 0;
    assert (text + more)[start..i + 300] == text[start..i + 300];
    assert PriceWindow(text + more, i) == PriceWindow(text, i);
  }
}
