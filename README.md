# Gas contract comparator: extraction and comparison core

This project models the core of a French natural-gas offer comparator. It has four parts:

- **The server-side extraction endpoint** (`api/extract-contracts.ts`).
  - It classifies a contract text as a single contract, a broker table or a comparison table.
  - It builds the prompt for the language model.
  - It normalises every offer of the model's JSON answer to a fixed record and keeps only the offers whose supplier it could name. Missing components take regulatory or typical defaults.
  - When the answer is not usable JSON, it falls back to a keyword search for suppliers and for a price written near each one.
- **The browser-side batch client** (`VercelAIService.processFiles`).
  - It reads each file, refuses files over 10 MiB and skips texts shorter than 50 characters once trimmed.
  - It posts at most 15000 characters per file to the endpoint.
  - It tags every returned offer with an id and its file, and emits progress events.
  - Its React hook `useVercelAI` folds those events into a progress state.
- **The older single-offer client** (`RealAIService`). It has its own normaliser and number parser. It also has a regular-expression fallback, used when the model cannot be reached or returns something that is not a JSON object.
- **The comparison table** of the single-page application (`App.tsx`).
  - The user filters its rows by a query.
  - Each row has a yearly cost with and without VAT, and the rows are ordered by cost including VAT.
  - The table shows the cheapest row, the dearest row and the saving between them.
  - Rows can be edited, added and removed. The table is a class whose methods replace its `rows`.

These are modelled in Dafny:

- **Supporting modules.**
  - JavaScript's string built-ins: `toLowerCase`, `trim`, `indexOf`/`includes`, global `match` counts, `replace`, the `[^\d,.]` clean-up and `parseFloat` (module `JsText`).
  - JSON values as `JSON.parse` returns them, with property access and truthiness (module `Json`).
  - The shared offer record (module `Offers`).
- **Regular expressions.** Each one is written by hand as a deterministic match function. Leftmost, greedy and lazy matching are each stated and proved: a match starts at the first position where one exists, a greedy `.*` takes the last occurrence on the line, and a lazy `.*?` stops at the first digit.
- **Collaborators are inputs.** The OpenAI call, the endpoint call, the text-extraction libraries and `crypto.randomUUID` are not modelled as code. Instead:
  - A file is modelled together with what reading it gives and what the endpoint answers.
  - The model's reply is given as what `JSON.parse` makes of it.
  - The UUIDs are a given sequence of distinct strings.

Where the documented behaviour and the code differ, the model follows the code:

- **`consommationReference` is never absent after validation.** `parseFloatSafe` gives 0 for a missing value, and `extract-contracts.ts:304` applies no `||` default.
- **Negative numbers survive validation.** A negative JSON number passes through `parseFloatSafe` unchanged (`extract-contracts.ts:309`). So the tariff components of a validated offer are not always non-negative. The same holds in the table (`App.tsx:88`).
- **A `null` reaches the fallback.** A `null` answer makes the read of `parsed.offers` throw a `TypeError` (`extract-contracts.ts:137`), before any offer is validated. A `null` element of `offers` makes `validateOffer` throw one (`extract-contracts.ts:294`). Both errors are caught by the same `catch` as a JSON syntax error (`extract-contracts.ts:161`), so such an answer is handled by the fallback.
- **The fallback divides a price in cents per kWh by 10.** `extractPriceNearProvider` returns `rawPrice / 10` for a match in ct€/kWh or centimes/kWh (`extract-contracts.ts:390-391`). The extractor of the model does the same. Multiplying by 10 is what the conversion to €/MWh calls for; that reading is modelled beside it, and the difference is listed under "Findings".

## Model

| member | source | states |
|---|---|---|
| `Wrappers.Option.ToSeq` | packages/web/src/services/vercelAIService.ts:70-79 | An optional value as a list: empty exactly when absent, the one value otherwise |
| `Seqs.Filter` | gas-comparator/src/App.tsx:118 | `filter` keeps exactly the elements that pass the test, and never adds one |
| `Seqs.FilterIsSubsequence` | gas-comparator/api/extract-contracts.ts:146 | `filter` keeps the surviving elements in their original order |
| `Seqs.FilterMultiplicity` | gas-comparator/src/App.tsx:118 | `filter` keeps each kept element exactly as many times as it occurs |
| `Seqs.MapAll` | gas-comparator/api/extract-contracts.ts:144-145 | Mapping a function that may throw succeeds iff no element throws, and then gives each element's image in place |
| `Seqs.FoldLeftAppend` | packages/web/src/services/vercelAIService.ts:271-279 | Applying state updates for a concatenation of events is applying them for the first part, then the second |
| `JsText.LowerChar` | gas-comparator/api/extract-contracts.ts:193 | Lower-casing a character preserves digits, white space and line terminators, and yields a lower-case letter or the character itself |
| `JsText.Lower` | gas-comparator/api/extract-contracts.ts:193 | `toLowerCase` keeps the length and lower-cases every character in place |
| `JsText.LowerIdempotent` | gas-comparator/src/App.tsx:56 | Lower-casing twice is lower-casing once |
| `JsText.LowerAppend` | gas-comparator/api/extract-contracts.ts:193 | Lower-casing distributes over concatenation |
| `JsText.Trim` | gas-comparator/api/extract-contracts.ts:294 | `trim` yields the slice `s[i..j]` of the input such that everything before `i` and from `j` on is white space, and the slice neither starts nor ends with white space |
| `JsText.TrimStart` | gas-comparator/api/extract-contracts.ts:294 | Leading white space is dropped and only white space is dropped |
| `JsText.TrimEnd` | gas-comparator/api/extract-contracts.ts:294 | Trailing white space is dropped and only white space is dropped |
| `JsText.TrimUnpadded` | gas-comparator/api/extract-contracts.ts:294-295 | A string without white space at either end is its own trim |
| `JsText.TrimEmptyIffAllSpace` | packages/web/src/services/vercelAIService.ts:53 | Trimming leaves nothing iff the string is all white space |
| `JsText.TrimIdempotent` | gas-comparator/src/App.tsx:56 | Trimming twice is trimming once |
| `JsText.LowerTrim` | gas-comparator/src/App.tsx:56 | Trimming and lower-casing commute |
| `JsText.IndexFrom` | gas-comparator/api/extract-contracts.ts:369 | `indexOf` gives -1 or an occurrence, and no occurrence lies before it |
| `JsText.CountOccurrences` | gas-comparator/api/extract-contracts.ts:198-200 | A global match count is positive iff the word occurs, and the matches fit in the text without overlapping |
| `JsText.CountFrom` | gas-comparator/api/extract-contracts.ts:198-200 | The matches counted from a position fit in the rest of the text, and none is counted when the word no longer fits |
| `JsText.ContainsIff` | gas-comparator/api/extract-contracts.ts:205 | `includes` holds iff the word occurs somewhere |
| `JsText.CountPositiveIff` | gas-comparator/api/extract-contracts.ts:198-200 | A global match finds something iff `indexOf` does |
| `JsText.CountAppendMonotone` | gas-comparator/api/extract-contracts.ts:197-201 | Appending text never lowers the number of global matches |
| `JsText.IndexFromAppend` | gas-comparator/api/extract-contracts.ts:369 | Appending text does not move a first occurrence already present |
| `JsText.SliceTo` | gas-comparator/api/extract-contracts.ts:217 | `slice(0, n)` is the prefix of length `min(n, length)` |
| `JsText.ReplaceFirst` | gas-comparator/api/extract-contracts.ts:311 | `replace(',', '.')` keeps the length and replaces exactly the first comma, the one with no comma before it, by a period; every other character is kept, and a comma-free string is left alone |
| `JsText.KeepNumeric` | gas-comparator/api/extract-contracts.ts:311 | `replace(/[^\d,.]/g, '')` leaves only digits, commas and periods |
| `JsText.KeepNumericAppend` | gas-comparator/api/extract-contracts.ts:311 | The clean-up distributes over concatenation |
| `JsText.KeepNumericIdentity` | gas-comparator/api/extract-contracts.ts:311 | The clean-up leaves a numeric string unchanged |
| `JsText.CleanNumeric` | gas-comparator/api/extract-contracts.ts:311 | The full clean-up leaves only digits, commas and periods |
| `JsText.KeepNumericHead` | gas-comparator/api/extract-contracts.ts:387 | A match that starts with a digit still starts with a digit once cleaned |
| `JsText.UnsignedDecimalPrefix` | gas-comparator/api/extract-contracts.ts:312 | The longest decimal-literal prefix exists iff the string starts with a digit or with a period and a digit, and is never negative |
| `JsText.DecimalStringValue` | gas-comparator/api/extract-contracts.ts:311-312 | The decimal digits of a natural number read back as that number |
| `JsText.ParseFloat` | gas-comparator/api/extract-contracts.ts:312 | After leading white space, `parseFloat` gives NaN for empty text and for text that starts with anything but a digit, a sign, a period or `I`; a digit start gives a finite non-negative number; a negative result needs a leading minus sign |
| `JsText.ParseFloatOfDigitStart` | gas-comparator/api/extract-contracts.ts:312 | `parseFloat` of a string that starts with a digit is its decimal prefix |
| `JsText.ParseFloatOfDecimal` | gas-comparator/api/extract-contracts.ts:312 | `parseFloat("d.f")` is `d` plus the fraction `.f` |
| `JsText.DecimalPrefixOfDecimal` | gas-comparator/api/extract-contracts.ts:312 | The decimal prefix of `d.f` is the whole literal |
| `JsText.ParseFloatOfNumericChars` | gas-comparator/api/extract-contracts.ts:312-313 | On cleaned text `parseFloat` is never infinite or negative, and is finite iff the text starts with a digit or a period and a digit |
| `JsText.ParseFloatNegated` | gas-comparator/src/App.tsx:88 | A leading minus sign negates the parsed value |
| `JsText.ParseFloatWithoutDigits` | gas-comparator/src/App.tsx:88-89 | A string without a digit never parses to a finite number |
| `Json.Member` | gas-comparator/api/extract-contracts.ts:137-139 | Property access finds a value iff the value is an object that has the key |
| `Offers.Tariff.With` | gas-comparator/src/App.tsx:94 | `{ ...t, [field]: v }` sets that component and keeps every other |
| `ExtractContracts.MentionCount` | gas-comparator/api/extract-contracts.ts:196-201 | The number of supplier mentions is positive iff one of the supplier names occurs in the lower-cased text |
| `ExtractContracts.DetectDocumentType` | gas-comparator/api/extract-contracts.ts:192-214 | A comparison table iff more than 5 mentions or a table keyword; a broker table iff 3 to 5 mentions and no keyword; a single contract iff at most 2 mentions and no keyword |
| `ExtractContracts.SumCountsAppendMonotone` | gas-comparator/api/extract-contracts.ts:197-201 | Appending text never lowers the mention count of the supplier list |
| `ExtractContracts.DetectDocumentTypeMonotone` | gas-comparator/api/extract-contracts.ts:192-214 | Appending text can only move a document towards the multi-offer types |
| `ExtractContracts.DetectDocumentTypeIgnoresCase` | gas-comparator/api/extract-contracts.ts:193-205 | The classification of a text and of its lower-cased form agree |
| `ExtractContracts.BuildAdvancedPrompt` | gas-comparator/api/extract-contracts.ts:216-223 | The first 8000 characters of the text occur in the prompt right after the head that names the file and the type |
| `ExtractContracts.SchemaEndings` | gas-comparator/api/extract-contracts.ts:241-288 | The two answer formats end differently, so a prompt cannot end with both |
| `ExtractContracts.PromptSchemaChoice` | gas-comparator/api/extract-contracts.ts:234-289 | The prompt ends with the multi-offer format iff the document is a table, and with the single-offer format iff it is not |
| `ExtractContracts.PromptNamesFileAndType` | gas-comparator/api/extract-contracts.ts:219-221 | The prompt names the file right after its label, and contains the detected type |
| `ExtractContracts.PromptSeesOnlyPreview` | gas-comparator/api/extract-contracts.ts:217 | Two texts give the same prompt iff their first 8000 characters agree |
| `ExtractContracts.PromptLengthBounded` | gas-comparator/api/extract-contracts.ts:216-290 | The prompt is at most the file name, 8000 characters of text and fixed prose, however long the document |
| `ExtractContracts.ParseFloatSafe` | gas-comparator/api/extract-contracts.ts:308-316 | A JSON number passes through unchanged; a string gives what `parseFloat` reads from its cleaned form when that is finite, and 0 otherwise; the result of a string is never negative; anything else gives 0 |
| `ExtractContracts.ParseFloatSafeReadsDecimalComma` | gas-comparator/api/extract-contracts.ts:308-314 | A string such as `8,69 €/MWh` reads as the decimal it writes |
| `ExtractContracts.ParseFloatSafeOfCleaned` | gas-comparator/api/extract-contracts.ts:311-313 | A string whose cleaned form parses to a finite value reads as that value |
| `ExtractContracts.CleanNumericOfDecimal` | gas-comparator/api/extract-contracts.ts:311 | Cleaning `d,f` followed by a unit yields `d.f` |
| `ExtractContracts.KeepNumericOfDecimal` | gas-comparator/api/extract-contracts.ts:311 | The clean-up drops a trailing unit and keeps the decimal |
| `ExtractContracts.ValidatedTariff` | gas-comparator/api/extract-contracts.ts:296-303 | Every component is normalised the same way, by its own default |
| `ExtractContracts.StringOr` | gas-comparator/api/extract-contracts.ts:294-295 | `String` of a property or its fallback is the fallback for a falsy value and the string itself for a non-empty string |
| `ExtractContracts.ValidateOffer` | gas-comparator/api/extract-contracts.ts:292-306 | Throws exactly on `null`; otherwise a component is 0 only where its default is 0, both names are trimmed, and the reference consumption is present |
| `ExtractContracts.ValidatedTariffOfEmptyObject` | gas-comparator/api/extract-contracts.ts:296-303 | An object without numeric fields gets the default tariff |
| `ExtractContracts.DefaultNamesUnpadded` | gas-comparator/api/extract-contracts.ts:294-295 | The default names survive trimming unchanged |
| `ExtractContracts.ValidateEmptyObject` | gas-comparator/api/extract-contracts.ts:292-306 | `validateOffer({})` is the offer of defaults with reference consumption 0 |
| `ExtractContracts.ValidateBlankSupplier` | gas-comparator/api/extract-contracts.ts:294 | A white-space supplier becomes "" and not the unknown-supplier sentinel, so the endpoint's filter keeps the offer |
| `ExtractContracts.OfferJson` | gas-comparator/api/extract-contracts.ts:292-305 | An offer written back as JSON carries every component and both names under their keys |
| `ExtractContracts.ValidatedTariffOfJson` | gas-comparator/api/extract-contracts.ts:296-303 | Normalising a tariff already in normal form gives it back |
| `ExtractContracts.ValidateOfferJson` | gas-comparator/api/extract-contracts.ts:292-306 | Every normal-form offer with non-empty names is a fixed point of validation |
| `ExtractContracts.ValidateOfferIdempotent` | gas-comparator/api/extract-contracts.ts:292-306 | Validating a validated offer again changes nothing, as long as its names are non-empty |
| `ExtractContracts.ValidateAll` | gas-comparator/api/extract-contracts.ts:144-145 | `offers.map(validateOffer)` throws iff an element is `null`, and otherwise validates each element in place |
| `ExtractContracts.SelectOffers` | gas-comparator/api/extract-contracts.ts:136-142 | The candidates are the `offers` array when there is one; otherwise the answer itself iff it has a truthy `fournisseur`, and nothing else |
| `ExtractContracts.FallsBack` | gas-comparator/api/extract-contracts.ts:132-161 | The fallback is taken iff the content is not JSON, is `null`, or has a `null` candidate |
| `ExtractContracts.KeptOffers` | gas-comparator/api/extract-contracts.ts:144-146 | The offers kept from a usable answer are the validated candidates with a known supplier, all of them, in the answer's order, never more than the candidates |
| `ExtractContracts.Answered` | gas-comparator/api/extract-contracts.ts:132-179 | A parsed answer always gives a 200 answer; it carries the fallback warning iff the fallback is taken, with the fallback offers; otherwise the kept offers, the detected type and the number of candidates |
| `ExtractContracts.Handle` | gas-comparator/api/extract-contracts.ts:57-189 | 400 on a missing text; an answer is produced iff the key is configured and the model replied with content; the fallback is used iff the content is unusable; every returned offer has a known supplier; on a usable answer the offers are the kept offers; `extractedOffers` counts them and never exceeds `originalLength` |
| `ExtractContracts.FoundProviders` | gas-comparator/api/extract-contracts.ts:333-335 | A map entry is found iff its key occurs in the lower-cased text |
| `ExtractContracts.FallbackOffer` | gas-comparator/api/extract-contracts.ts:354-365 | A recognised supplier gets the default tariff with CEE 8.5 and the price read near its key |
| `ExtractContracts.ProviderNamesKnown` | gas-comparator/api/extract-contracts.ts:322-331 | No supplier of the map is the unknown-supplier sentinel |
| `ExtractContracts.PerformFallbackExtraction` | gas-comparator/api/extract-contracts.ts:318-366 | The fallback always returns between one offer and one per map entry, all with a known supplier |
| `ExtractContracts.FallbackPlaceholderIff` | gas-comparator/api/extract-contracts.ts:339-352 | The placeholder offer is returned iff no key of the map occurs in the text |
| `ExtractContracts.FallbackNamesMentionedSuppliers` | gas-comparator/api/extract-contracts.ts:354-365 | Otherwise the offers name exactly the suppliers one of whose keys occurs |
| `ExtractContracts.PatternUnits` | gas-comparator/api/extract-contracts.ts:378-390 | Only the second and third patterns count as cents per kWh |
| `ExtractContracts.NumberEnd` | gas-comparator/api/extract-contracts.ts:379 | The greedy number `\d+[,.]?\d*` spans digits, commas and periods only |
| `ExtractContracts.SkipSpaces` | gas-comparator/api/extract-contracts.ts:379 | `\s*` consumes exactly the run of white space |
| `ExtractContracts.UnitEnd` | gas-comparator/api/extract-contracts.ts:379-381 | A unit spelling match ends inside the text |
| `ExtractContracts.MatchEnd` | gas-comparator/api/extract-contracts.ts:379-381 | A price match starts with a digit and ends inside the text |
| `ExtractContracts.FirstMatch` | gas-comparator/api/extract-contracts.ts:385 | `match` with `g` reports the leftmost match first: no match starts before it, and none at all when it is absent |
| `ExtractContracts.CentsToEurosPerMWh` | gas-comparator/api/extract-contracts.ts:389-391 | The corrected conversion: a price per kWh in cents is the same price per MWh in euros (one cent per kWh is ten euros per MWh) |
| `ExtractContracts.CentsConversionAsWrittenIsOff` | gas-comparator/api/extract-contracts.ts:391 | The division by 10 gives a hundredth of the correct price; 3.5 ct€/kWh comes out as 0.35 instead of 35 |
| `ExtractContracts.CentsReadings` | gas-comparator/api/extract-contracts.ts:390-391 | A price in cents per kWh is divided by 10 as written, and multiplied by 10 in the corrected reading |
| `ExtractContracts.PatternPrice` | gas-comparator/api/extract-contracts.ts:384-395 | A pattern's price is never negative |
| `ExtractContracts.PatternPriceValue` | gas-comparator/api/extract-contracts.ts:385-394 | A matching pattern's price is the number `parseFloatSafe` reads from the leftmost match: as is for €/MWh, and converted from cents for the two cents patterns |
| `ExtractContracts.PriceFrom` | gas-comparator/api/extract-contracts.ts:384-398 | The price of the first pattern that yields one, never negative |
| `ExtractContracts.PriceOfCentsAmount` | gas-comparator/api/extract-contracts.ts:384-394 | When no €/MWh amount is in the window and a ct€/kWh amount is, the price is that amount converted from cents |
| `ExtractContracts.PriceWindow` | gas-comparator/api/extract-contracts.ts:372-375 | The search window is at most 500 characters |
| `ExtractContracts.PriceNearProvider` | gas-comparator/api/extract-contracts.ts:368-399 | The price read near a supplier is never negative |
| `ExtractContracts.ExtractPriceNearProvider` | gas-comparator/api/extract-contracts.ts:368-399 | The loop over the patterns returns the price read near the supplier as written, with a cents price divided by 10 |
| `ExtractContracts.IntendedPriceIsHundredfold` | gas-comparator/api/extract-contracts.ts:384-398 | The corrected price is the price as written, or a hundred times it when a cents pattern supplied it; each is 0 iff the other is |
| `ExtractContracts.CentsPriceReadHundredfoldLow` | gas-comparator/api/extract-contracts.ts:368-394 | For `ENGIE 3,5 c€/kWh` the fallback price near "engie" is 0.35 as written and 35 €/MWh in the corrected reading |
| `ExtractContracts.MatchAlwaysParses` | gas-comparator/api/extract-contracts.ts:385-388 | A pattern yields a price iff it matches: the `isNaN` check never rejects a match |
| `ExtractContracts.PriceIgnoresDistantText` | gas-comparator/api/extract-contracts.ts:369-375 | Text more than 300 characters past the first mention does not change the price |
| `VercelAIService.RoundedMegabytes` | packages/web/src/services/vercelAIService.ts:126 | `Math.round(size / 1024 / 1024)` is the nearest whole number of MiB |
| `VercelAIService.ExtractTextFromFile` | packages/web/src/services/vercelAIService.ts:123-143 | A file over 10 MiB is refused with its rounded size, and only then; otherwise reading succeeds iff the extractor gives text |
| `VercelAIService.RequestFor` | packages/web/src/services/vercelAIService.ts:211-214 | The request carries the file name and the text's prefix of at most 15000 characters, the whole text when it is shorter |
| `VercelAIService.Outcome` | packages/web/src/services/vercelAIService.ts:43-105 | A file counts as having found offers only when it has at least one |
| `VercelAIService.ReplyOutcome` | packages/web/src/services/vercelAIService.ts:70-95 | An answer counts as having found offers only when it has at least one |
| `VercelAIService.FileRequest` | packages/web/src/services/vercelAIService.ts:51-70 | The endpoint is called iff the file could be read and its trimmed text has at least 50 characters |
| `VercelAIService.ContributionOf` | packages/web/src/services/vercelAIService.ts:72-79 | A branch contributes its offers, in order, each with the file's name, and no offer unless it found some |
| `VercelAIService.Contribution` | packages/web/src/services/vercelAIService.ts:72-79 | A file contributes offers iff its call found some, all tagged with its name |
| `VercelAIService.RatioBelow` | packages/web/src/services/vercelAIService.ts:46 | A per-file percentage `(i / n) * k` lies in `[0, k)` |
| `VercelAIService.OutcomeEvents` | packages/web/src/services/vercelAIService.ts:43-104 | A branch emits two or three events, all naming its file: the reading event at 20 % first, and one event with an offer count, last, that counts the branch's offers |
| `VercelAIService.FileEvents` | packages/web/src/services/vercelAIService.ts:43-104 | Each file emits two or three events, all naming it: the reading event first and a final event with the number of offers the file contributes |
| `VercelAIService.GatheredGrows` | packages/web/src/services/vercelAIService.ts:79 | The list of offers only grows from file to file |
| `VercelAIService.TagFrom` | packages/web/src/services/vercelAIService.ts:73-77 | Each offer is paired with its own id and its file's name, in order |
| `VercelAIService.BatchStep` | packages/web/src/services/vercelAIService.ts:40-106 | Processing one more file appends that file's offers and events |
| `VercelAIService.ProcessFile` | packages/web/src/services/vercelAIService.ts:40-105 | One iteration adds the file's tagged offers, emits its events and makes its request |
| `VercelAIService.AnalyzeText` | packages/web/src/services/vercelAIService.ts:63-95 | After a long enough text: the offers and events the endpoint's answer leads to |
| `VercelAIService.ProcessNext` | packages/web/src/services/vercelAIService.ts:40-106 | The loop state after `i` files becomes the state after `i + 1` files |
| `VercelAIService.ProcessFiles` | packages/web/src/services/vercelAIService.ts:28-121 | The batch returns every contributed offer, tagged in order; emits the start event, each file's events and the end event; and makes one request per file that passes the size and length checks, in file order |
| `VercelAIService.ProcessedNothing` | packages/web/src/services/vercelAIService.ts:32-38 | Before the first file nothing is returned, emitted or requested |
| `VercelAIService.GatheredFromBranches` | packages/web/src/services/vercelAIService.ts:72-79 | Every returned offer comes from an earlier file whose call found it, and carries that file's name |
| `VercelAIService.ContributedFromFiles` | packages/web/src/services/vercelAIService.ts:72-79 | The same, stated on the files |
| `VercelAIService.SkippedFileIgnoresReply` | packages/web/src/services/vercelAIService.ts:51-61 | A file that cannot be read or is too short adds nothing, makes no request, and its events do not depend on any endpoint answer |
| `VercelAIService.OversizeFileIgnoresContent` | packages/web/src/services/vercelAIService.ts:124-127 | A file over 10 MiB is refused whatever its content or the endpoint's answer |
| `VercelAIService.FileRequestShape` | packages/web/src/services/vercelAIService.ts:201-215 | A request is the file's name and the truncated text read from it |
| `VercelAIService.RequestsArePrefixes` | packages/web/src/services/vercelAIService.ts:211-213 | At most one request per file, each a prefix of at most 15000 characters of some file's text, with that file's name |
| `VercelAIService.TaggedIdsDistinct` | packages/web/src/services/vercelAIService.ts:73-77 | Distinct UUIDs give the returned offers distinct ids |
| `VercelAIService.FileEventsProgress` | packages/web/src/services/vercelAIService.ts:43-104 | Every per-file event reports `(i / n) * k` with `k` one of 20, 50, 60, 90 |
| `VercelAIService.AllFileProgressAppend` | packages/web/src/services/vercelAIService.ts:40-106 | The per-file progress property holds of concatenated event lists |
| `VercelAIService.TraceProgress` | packages/web/src/services/vercelAIService.ts:40-106 | It holds of all file events of the batch |
| `VercelAIService.BatchProgress` | packages/web/src/services/vercelAIService.ts:35-111 | The batch starts at 0 %, ends at 100 % and reports below 90 % in between |
| `VercelAIService.TraceBatchProgress` | packages/web/src/services/vercelAIService.ts:35-111 | The same, given each file's branch and name |
| `VercelAIService.RatioGrows` | packages/web/src/services/vercelAIService.ts:46-91 | Within one file, a later step's factor never gives a lower percentage |
| `VercelAIService.OutcomeEventsEffect` | packages/web/src/services/vercelAIService.ts:272-279 | One file's events add its offers to `totalOffers`, one per named event to `processedFiles`, and make it the current file |
| `VercelAIService.ContributionCount` | packages/web/src/services/vercelAIService.ts:80-86 | The offers a file adds are as many as its final event reports |
| `VercelAIService.GatheredCount` | packages/web/src/services/vercelAIService.ts:79-86 | The offers returned are as many as the files report |
| `VercelAIService.TraceLength` | packages/web/src/services/vercelAIService.ts:40-106 | The batch emits at least two events per file |
| `VercelAIService.ApplyStepEffect` | packages/web/src/services/vercelAIService.ts:272-279 | One progress event sets the step and the percentage, adds its offer count to `totalOffers`, and when it names a file makes it current and adds 1 to `processedFiles`; nothing else changes |
| `VercelAIService.ApplyStepCorrected` | packages/web/src/services/vercelAIService.ts:277-278 | The corrected update agrees with the written one except on `processedFiles`, which grows by 1 iff the event reports an offer count |
| `VercelAIService.ReplayTraceTotals` | packages/web/src/services/vercelAIService.ts:277 | Replaying the files' events adds their offer counts to `totalOffers` |
| `VercelAIService.ReplayCorrectedTotals` | packages/web/src/services/vercelAIService.ts:277-278 | With the corrected update the same holds, and `processedFiles` grows by the number of files |
| `VercelAIService.ReplayTraceCountsEvents` | packages/web/src/services/vercelAIService.ts:278 | As written, `processedFiles` grows by the number of events when every file has a name |
| `VercelAIService.ReplayTraceCurrentFile` | packages/web/src/services/vercelAIService.ts:276 | After a named file's events that file is the current one |
| `VercelAIService.HookTotals` | packages/web/src/services/vercelAIService.ts:257-280 | At the end of a batch the hook shows as many offers as were returned, 100 %, the finished step and the last named file |
| `VercelAIService.HookTraceTotals` | packages/web/src/services/vercelAIService.ts:271-279 | The same, given each file's branch and name |
| `VercelAIService.HookCountsFilesCorrected` | packages/web/src/services/vercelAIService.ts:242 | With the corrected update `processedFiles` ends at the number of files |
| `VercelAIService.HookTraceCountsFiles` | packages/web/src/services/vercelAIService.ts:278 | The same, given each file's branch and name |
| `VercelAIService.HookCountsEventsAsWritten` | packages/web/src/services/vercelAIService.ts:278 | As written, `processedFiles` ends at the number of named events, at least twice the number of files |
| `VercelAIService.HookTraceCountsEvents` | packages/web/src/services/vercelAIService.ts:278 | The same, given each file's branch and name |
| `VercelAIService.ReplayThroughBatch` | packages/web/src/services/vercelAIService.ts:271-280 | Replaying a batch is replaying its start event, its files' events and its end event, in that order |
| `RealAIService.NumberOr` | gas-comparator/src/services/realAIService.ts:177 | A number or its default keeps a non-zero number and replaces NaN and 0 by the default |
| `RealAIService.LegacyParseFloat` | gas-comparator/src/services/realAIService.ts:173-180 | A JSON number passes through, a string gives a non-negative value, anything else gives 0 |
| `RealAIService.LegacyParseFloatAgrees` | gas-comparator/src/services/realAIService.ts:173-180 | This parser and the server's `parseFloatSafe` agree on every input |
| `RealAIService.CleanedTariff` | gas-comparator/src/services/realAIService.ts:162-169 | Every component is cleaned the same way, by its own default |
| `RealAIService.ValidateAndCleanData` | gas-comparator/src/services/realAIService.ts:158-171 | Throws exactly on `null`; otherwise a component is 0 only where its default is 0, and missing names take their defaults |
| `RealAIService.CleanedAgreesWithValidated` | gas-comparator/src/services/realAIService.ts:158-171 | The client and the server normalisers give the same tariff; the names differ only by trimming and by the contract default |
| `RealAIService.LineEnd` | gas-comparator/src/services/realAIService.ts:186 | `.` stops at the first line terminator |
| `RealAIService.FirstDigit` | gas-comparator/src/services/realAIService.ts:187 | The first digit in a range, with no digit before it |
| `RealAIService.LazyNumber` | gas-comparator/src/services/realAIService.ts:187 | `.*?(\d+[,.]?\d*)` captures the number at the first digit on the line, and fails iff the rest of the line has no digit |
| `RealAIService.KeywordNumberAt` | gas-comparator/src/services/realAIService.ts:187 | A keyword pattern matches only where its keyword occurs |
| `RealAIService.KeywordMatch` | gas-comparator/src/services/realAIService.ts:199 | `match` finds a position where the keyword pattern matches |
| `RealAIService.KeywordMatchIsFirst` | gas-comparator/src/services/realAIService.ts:199 | No position before the match starts a match |
| `RealAIService.CapturedValue` | gas-comparator/src/services/realAIService.ts:199-200 | A captured number always parses to a non-negative finite value |
| `RealAIService.KeywordValue` | gas-comparator/src/services/realAIService.ts:199-200 | Without a match the default is used, and a positive default gives a positive value |
| `RealAIService.AlternativeAt` | gas-comparator/src/services/realAIService.ts:185 | The alternation matches at a position iff one alternative does, ending after that alternative |
| `RealAIService.AlternationMatch` | gas-comparator/src/services/realAIService.ts:191 | `match` finds a position where an alternative matches |
| `RealAIService.AlternationMatchIsFirst` | gas-comparator/src/services/realAIService.ts:191 | No alternative matches before the match |
| `RealAIService.MatchedText` | gas-comparator/src/services/realAIService.ts:191 | The supplier is the matched text, or the unknown-supplier default when nothing matches |
| `RealAIService.FallbackSupplier` | gas-comparator/src/services/realAIService.ts:191 | The supplier is the unknown-supplier default iff no alternative of the pattern occurs; otherwise it lower-cases to one of the alternatives |
| `RealAIService.MatchedTextIsAlternative` | gas-comparator/src/services/realAIService.ts:185-191 | When every alternative is shorter than the default, the matched text is the default iff nothing matches, and otherwise lower-cases to an alternative |
| `RealAIService.MatchedTextIgnoresCase` | gas-comparator/src/services/realAIService.ts:185-191 | The matched supplier text lower-cases to one of the alternatives |
| `RealAIService.AlternativeText` | gas-comparator/src/services/realAIService.ts:185 | The text an alternative matched lower-cases to that alternative |
| `RealAIService.GreedyMoleculeLast` | gas-comparator/src/services/realAIService.ts:186 | The greedy `.*molécule` takes the last "molécule" on the line that has a number after it |
| `RealAIService.GreedyMolecule` | gas-comparator/src/services/realAIService.ts:186 | A greedy match is the number after some "molécule" in range, and there is none iff no "molécule" in range has a number after it |
| `RealAIService.PriceGroupAt` | gas-comparator/src/services/realAIService.ts:186 | The price pattern matches only at "prix" or "molécule", and captures a number that follows a "molécule" |
| `RealAIService.PriceMatch` | gas-comparator/src/services/realAIService.ts:192 | `match` finds a position where the price pattern matches |
| `RealAIService.PriceMatchIsFirst` | gas-comparator/src/services/realAIService.ts:192 | The price pattern matches nowhere before its match |
| `RealAIService.FallbackPrice` | gas-comparator/src/services/realAIService.ts:192-193 | The molecule price read by the fallback is never negative |
| `RealAIService.NoMoleculeNoPrice` | gas-comparator/src/services/realAIService.ts:186-193 | Without "molécule" in the text the molecule price is 0 |
| `RealAIService.FallbackExtraction` | gas-comparator/src/services/realAIService.ts:182-207 | The fallback gives a 12-month fixed contract, a non-negative molecule price, positive CEE and transport, and the standard fixed charges |
| `RealAIService.FallbackCeeSource` | gas-comparator/src/services/realAIService.ts:199 | CEE is 8.5 without a match; otherwise it is the number after the leftmost "CEE" that has a digit further on its line, or 8.5 if that number is 0 |
| `RealAIService.FallbackTariffKeepsDefaults` | gas-comparator/src/services/realAIService.ts:195-206 | A fallback tariff is 0 only where the normaliser's default is 0 |
| `RealAIService.OpenAIPrompt` | gas-comparator/src/services/realAIService.ts:89-113 | The prompt is the fixed head, the first 3000 characters of the text and the fixed tail |
| `RealAIService.PromptSeesOnlyExcerpt` | gas-comparator/src/services/realAIService.ts:93 | Texts that agree on their first 3000 characters give the same prompt |
| `RealAIService.ExtractWithOpenAI` | gas-comparator/src/services/realAIService.ts:88-156 | Whatever the model does, a component of the result is 0 only where its default is 0 |
| `RealAIService.ExtractWithOpenAIFallsBack` | gas-comparator/src/services/realAIService.ts:145-155 | The regular-expression fallback is used iff the request throws, the answer is not JSON or it is `null`; otherwise the answer is normalised |
| `Comparator.ToNumberSafe` | gas-comparator/src/App.tsx:87-90 | A finite number is kept; a non-zero result is the number given or what `parseFloat` reads after the comma becomes a period |
| `Comparator.ToNumberSafeReadsDecimalComma` | gas-comparator/src/App.tsx:88 | `"d,f"` reads as the decimal `d.f` |
| `Comparator.ToNumberSafeReadsDecimalPoint` | gas-comparator/src/App.tsx:88 | `"d.f"` reads as the decimal `d.f` |
| `Comparator.ToNumberSafeKeepsSign` | gas-comparator/src/App.tsx:88-89 | `"-d,f"` reads as minus `d.f`: negative inputs are not clamped |
| `Comparator.ToNumberSafeNoDigits` | gas-comparator/src/App.tsx:88-89 | A text without digits becomes 0 |
| `Comparator.Mentions` | gas-comparator/src/App.tsx:59 | A row is mentioned by a query found in its lower-cased supplier name or in its lower-cased contract label |
| `Comparator.MentionsQuery` | gas-comparator/src/App.tsx:58-59 | The filter's test keeps a row iff the query is mentioned in it |
| `Comparator.FilterRows` | gas-comparator/src/App.tsx:55-61 | The filter never adds rows |
| `Comparator.FilterRowsSpec` | gas-comparator/src/App.tsx:55-61 | The filtered rows keep their order; every row is kept for a blank query; otherwise a row is kept iff its supplier and contract label, joined and lower-cased, contain the trimmed lower-cased query |
| `Comparator.FilterIgnoresQueryCase` | gas-comparator/src/App.tsx:56 | The query's case does not matter |
| `Comparator.FilterIgnoresPadding` | gas-comparator/src/App.tsx:56 | White space around the query does not matter |
| `Comparator.Priced` | gas-comparator/src/App.tsx:65-70 | The variable part is consumption times the unit price, `ht` is variable plus fixed, and `ttc` adds each part's VAT |
| `Comparator.PricedBounds` | gas-comparator/src/App.tsx:66-69 | With non-negative inputs, `0 <= ht <= ttc` |
| `Comparator.PricedMonotoneInConsumption` | gas-comparator/src/App.tsx:66-69 | With non-negative inputs, a larger consumption never lowers `ttc` |
| `Comparator.TtcAffineInConsumption` | gas-comparator/src/App.tsx:66-69 | `ttc` is what the row costs at no consumption plus the consumption times the unit price with its VAT |
| `Comparator.PriceAll` | gas-comparator/src/App.tsx:64-71 | Each filtered row is priced in its place |
| `Comparator.InsertByTtc` | gas-comparator/src/App.tsx:72 | Inserting adds exactly the one row |
| `Comparator.SortByTtc` | gas-comparator/src/App.tsx:72 | Sorting keeps exactly the rows it is given |
| `Comparator.InsertKeepsSorted` | gas-comparator/src/App.tsx:72 | Inserting into a sorted table keeps it sorted |
| `Comparator.SortByTtcSpec` | gas-comparator/src/App.tsx:72 | The ordering is by `ttc`, cheapest first, and is a permutation of its input |
| `Comparator.Best` | gas-comparator/src/App.tsx:75 | `computed[0]` exists iff the table is non-empty, and is one of its rows |
| `Comparator.Worst` | gas-comparator/src/App.tsx:76 | `computed[length - 1]` exists iff the table is non-empty, and is one of its rows |
| `Comparator.PotentialSave` | gas-comparator/src/App.tsx:77 | The saving is 0 for an empty table and never negative on a sorted one |
| `Comparator.CheapestAndDearest` | gas-comparator/src/App.tsx:63-77 | On the sorted table the best row is a cheapest and the worst a dearest of all the rows priced |
| `Comparator.SortedEnds` | gas-comparator/src/App.tsx:75-77 | The ends of any sorted arrangement bound every row |
| `Comparator.UpdatedRow` | gas-comparator/src/App.tsx:94 | A row with the id gets the value in the field; any other row keeps it; no other field, nor the id, name or label, changes |
| `Comparator.UpdatedRows` | gas-comparator/src/App.tsx:92-96 | Every row is updated in its place |
| `Comparator.UpdateTouchesOneField` | gas-comparator/src/App.tsx:94 | An edit sets the field of the rows with the id and changes nothing else in any row |
| `Comparator.UpdateAbsentId` | gas-comparator/src/App.tsx:94 | Editing an id no row has changes nothing |
| `Comparator.UpdateIdempotent` | gas-comparator/src/App.tsx:92-96 | Repeating an edit changes nothing more |
| `Comparator.UpdateCommutesWithFilter` | gas-comparator/src/App.tsx:55-96 | Editing then filtering is filtering then editing |
| `Comparator.NewRow` | gas-comparator/src/App.tsx:101-113 | A new row has the id it is given |
| `Comparator.NewRowCost` | gas-comparator/src/App.tsx:98-115 | A new row has no fixed charges and costs only the TICGN of 17.16 per MWh, plus VAT |
| `Comparator.RemainingRows` | gas-comparator/src/App.tsx:117-119 | A row remains iff it was there and has another id |
| `Comparator.RemoveKeepsOrder` | gas-comparator/src/App.tsx:118 | Removal keeps the other rows in order and as often as they were, and drops every row with the id |
| `Comparator.RemoveUndoesAdd` | gas-comparator/src/App.tsx:98-119 | Removing a row just added under a fresh id restores the table |
| `Comparator.RemoveIdempotent` | gas-comparator/src/App.tsx:117-119 | Removing twice is removing once |
| `Comparator.AddedRowIsListed` | gas-comparator/src/App.tsx:55-115 | With a blank query a row just added appears in the comparison with its costs |
| `Comparator.ComparisonTable.constructor` | gas-comparator/src/App.tsx:49-53 | The table starts empty, with no query, 600 MWh and VAT at 5.5 % and 20 % |
| `Comparator.ComparisonTable.Computed` | gas-comparator/src/App.tsx:63-73 | The computed table is sorted by `ttc` and holds exactly the priced filtered rows |
| `Comparator.ComparisonTable.Saving` | gas-comparator/src/App.tsx:75-77 | The saving shown is never negative and is 0 for an empty table |
| `Comparator.ComparisonTable.UpdateRow` | gas-comparator/src/App.tsx:92-96 | The normalised value goes into the field of the rows with the id; query and settings are unchanged |
| `Comparator.ComparisonTable.AddRow` | gas-comparator/src/App.tsx:98-115 | A new row is appended; query and settings are unchanged |
| `Comparator.ComparisonTable.RemoveRow` | gas-comparator/src/App.tsx:117-119 | The rows with the id are removed; query and settings are unchanged |

## Left out

- HTTP plumbing of the endpoint: the CORS preflight, the 405 for other methods, the bearer-token check against Supabase (401), logging and Sentry. They come before the modelled handler or have no effect on its answer.
- The requests to OpenAI and to the endpoint, and the text extractors (pdf.js, Tesseract, mammoth, FileReader). They are I/O: their results are inputs of the model. The system message and the sampling parameters of the OpenAI request are not modelled.
- `crypto.randomUUID`: the ids are a given sequence. Only their distinctness is assumed, as a precondition where it matters.
- IEEE doubles. Numbers are exact reals, so rounding, `Infinity` and very long digit strings are not modelled. `NaN` is modelled where `parseFloat` can produce it.
- `String(n)` for a JSON number. A `JNum` carries its rendering as given text; the shortest round-trip rendering of doubles is not reimplemented.
- `toLowerCase` beyond Basic Latin and Latin-1, and characters outside the Basic Multilingual Plane. A `char` stands for one UTF-16 code unit.
- The prose of the endpoint's prompt. The five directives are kept as short labels. The multi-offer format keeps one of its two example offers, and its emoji are dropped. The structure, the 8000-character preview and the choice of format are exact.
- The batch client's `totalProcessed` counter. It is incremented but never read.
- The text of the progress labels. Each event keeps its kind, its file, its offer count and its percentage.
- The `catch` of `useVercelAI` and `reset`. `processFiles` catches every per-file error, so in the model that handler is unreachable; `reset` only restores the initial state.
- The progress callback being optional (`onProgress?.`). The model always records the events; without a callback they are simply not observed.
- Comparator.ComparisonTable.UpdateRow: models edits of the eight numeric fields only. The source also accepts `id`, `name` and `type` as the field, and then stores a number in a string field.
- Comparator.SortByTtcSpec: does not prove that the sort is stable. JavaScript's sort is stable; the model's insertion order is too, but no lemma states it.
- The table's settings editors (`setConsumption`, the VAT inputs), euro formatting, the charts, PDF and CSV export, the theme and the page modes. They are presentation.
- `useAIProcessing`, `AIUploadSection`, `realPDFService` and the remaining methods of `RealAIService` (file reading). They are not part of this model.

## Findings

| source | as written | input that shows it | evidently intended | confidence | as-written member | corrected member |
|---|---|---|---|---|---|---|
| gas-comparator/api/extract-contracts.ts:391 | A price matched in ct€/kWh or centimes/kWh is divided by 10 to give €/MWh (the prompt at line 228 asks the model for the same). | The text `ENGIE 3,5 c€/kWh`: the price read near "engie" is 0.35. | 1 ct€/kWh is 10 €/MWh, so the price should be multiplied by 10: 35 €/MWh. | medium; not executed | `ExtractContracts.CentsPriceReadHundredfoldLow` | `ExtractContracts.IntendedPriceIsHundredfold` |
| packages/web/src/services/vercelAIService.ts:278 | `processedFiles` is incremented on every progress event that carries a file name. Each file emits two or three such events. | One file `a.pdf` whose text is too short emits a reading event and a too-short event, so `processedFiles` is 2 after one file. | One increment per file, for example on the event that reports the file's offer count. | medium; not executed | `VercelAIService.HookCountsEventsAsWritten` | `VercelAIService.HookCountsFilesCorrected` |
