# inventory-parser, modelled in Dafny

This project models the inventory message parser and the row utilities around it.
`parse` turns a free-text stock message into ledger rows in four steps:

- Each line goes through `_parse_line`. It finds a date, a location with its direction, a transaction type, a supplier, a quantity with a container, and an item name.
- `_merge_lines` joins a quantity line with the item line that follows it. A line that only sets a type or a note is folded into the record before it.
- `_broadcast_context` spreads locations, types and dates to the records that lack them.
- `_generate_result` sorts the records into transactions, notes and unparseable lines. It numbers the transactions into batches and writes one row per record, or two rows for a double-entry transfer.

Beside the parser, the model covers these editor utilities:

- formatting cells and rows for the clipboard, and the missing-field warning;
- re-reading an edited quantity or date;
- finding and updating a row's double-entry partner;
- the options of a closed-set field;
- the alias and unit-conversion suggestions offered after an edit.

How the model is laid out:

- Each source function is one Dafny member. The proofs talk about the model's functions.
- Where the source changes state step by step, the model has a method proved equal to a function. These are `_parse_line`, `_merge_lines`, `find_partner` and the alias and conversion checks, which loop over their input, and `parse` and `_generate_result`. The properties are then proved about that function.
- `_broadcast_context`, `_assign_batches` and `update_partner` change their list in place. Their models are methods over an `array`.
- The configuration is a datatype. Every optional key is already resolved to the value the code falls back to. Python dicts are sequences of pairs, because several lookups depend on insertion order.
- Strings are `seq<char>`. Regular expressions are written out as match-at-position predicates plus a leftmost search.
- `difflib`'s similarity ratio is a function parameter `sim`. `today` is a parameter too.

Three points of the code worth noting:

- The backward fill of `_broadcast_context` uses the *last* location, type and date in the message, not the first one.
- `_assign_batches` compares with `is not None`, so an empty-string location still counts as a stated destination.
- The `_is_note` ratio test `alpha / len(raw) > 0.3` is exact and written with integers: `10 * alpha > 3 * len`.

## Model

| member | source | states |
|---|---|---|
| Fuzzy.CloseMatch | inventory_parser.py:43 | `get_close_matches(..., n=1)`: the result is a possibility scoring at least the cutoff, and no qualifying possibility scores higher; there is no result exactly when every possibility scores below the cutoff |
| Fuzzy.FuzzyResolve | inventory_parser.py:17-55 | blank text resolves to nothing; any resolved name is a candidate or an alias target; an `exact` result equals the text ignoring case |
| Fuzzy.FuzzyResolveExactFirst | inventory_parser.py:27-30 | the first candidate equal to the text ignoring case is returned as `exact`, whatever the aliases say |
| Fuzzy.FuzzyResolveAliasSecond | inventory_parser.py:32-36 | with no exact candidate, the first alias key equal to the text gives its target, as `alias` |
| Fuzzy.ResolveMatch | inventory_parser.py:553-560 | a resolved name is a candidate or an alias target, and every lower-cased candidate or alias key resolves |
| Calendar.MakeDate | inventory_parser.py:204-207 | `date(y, m, d)` succeeds exactly for a real calendar date, and then holds those three values |
| Calendar.ExpandYear | inventory_parser.py:201-202 | a year below 100 is read as 2000 plus the year; other years are kept |
| DateExtraction.FirstSeparated | inventory_parser.py:198 | `re.search` for `D.M.Y`: the leftmost position where the pattern matches; no match means no position matches |
| DateExtraction.ExtractDate | inventory_parser.py:196-229 | any extracted date is a valid calendar date; with no date the text is returned unchanged; the remaining text is never longer |
| DateExtraction.DottedRoundTrip | inventory_parser.py:197-205 | a date of this century written `D.M.YY` is read back exactly, and nothing is left of the text |
| DateExtraction.SlashedRoundTrip | inventory_parser.py:208-216 | a date of this century written `M/D/YY` is read back exactly, and nothing is left of the text |
| DateExtraction.InvalidDottedFallsThrough | inventory_parser.py:199-209 | a dotted match that is no calendar date (such as `31.2.24`) falls through to the slashed layout |
| DateExtraction.FromSixDigits | inventory_parser.py:219-228 | six bare digits give a valid date or leave the text unchanged |
| DateExtraction.SixDigitRoundTrip | inventory_parser.py:219-228 | a date of this century written `DDMMYY` is read back exactly by the six-digit layout, and nothing is left of the text |
| LocationExtraction.BaseLocations | inventory_parser.py:233-235 | the known places are the locations plus the default source, which is always among them |
| Configuration.AllContainers | inventory_parser.py:442-448 | the container names are the keys of every item's conversions except `base_unit`, each once |
| LocationExtraction.LocationNames | inventory_parser.py:237-245 | the names tried are the known places plus alias keys; every alias mapping kept is a configured alias |
| LocationExtraction.PhraseHit | inventory_parser.py:254-264 | the hit is the candidate's own phrase, at the leftmost position where it matches; no earlier candidate in try order matches anywhere in the line; no hit means no candidate matches anywhere |
| LocationExtraction.PhraseTier | inventory_parser.py:254-271 | a phrase result exists exactly when some candidate phrase matches; it is the alias-resolved place name and the direction of the first matching candidate |
| LocationExtraction.PhraseDecides | inventory_parser.py:254-271 | once any candidate phrase occurs in the line, the location and direction come from a matching candidate whose place name is at least as long, never from the fuzzy fallback |
| LocationExtraction.LongerComesFirst | inventory_parser.py:254 | a candidate for a longer place name is always tried before one for a shorter name |
| LocationExtraction.LongestLocationWins | inventory_parser.py:254-264 | when a phrase matches, no phrase for a longer place name matches anywhere in the line |
| LocationExtraction.FuzzyTier | inventory_parser.py:272-291 | the fuzzy fallback only reports a known place or an alias of one |
| LocationExtraction.ExtractLocation | inventory_parser.py:232-294 | a location and a direction are found together or not at all; with none the text is unchanged; the direction is a preposition key, or `to` from the fuzzy fallback; the location is a name the alias loop built, or what the location alias map sends one of them to; when a candidate phrase occurs, the result is the first matching candidate's canonical name and direction; the fuzzy fallback, with direction `to`, is used only when no candidate phrase occurs |
| LocationExtraction.ReachableKnown | inventory_parser.py:233-245 | such a location is a configured location, the default source, or named by a configured alias |
| VerbExtraction.VerbTier | inventory_parser.py:298-304 | a hit names an `action_verbs` key; it comes from the first verb that occurs as a whole word, types in configuration order and each type's verbs longest first; the verb is taken at its leftmost match, and the rest is the line with that match cut out and stripped; no hit means no configured verb occurs anywhere in the line |
| VerbExtraction.NameTier | inventory_parser.py:308-332 | the hit is the first name in the given order that matches, with `_` standing for space, `_` or `-`, at its leftmost match; the rest is the line with that match cut out and stripped; no hit means no name matches anywhere |
| VerbExtraction.VerbTable | inventory_parser.py:337-345 | every name in the fuzzy table stands for an `action_verbs` key, a transaction type or an alias target |
| VerbExtraction.ExtractVerb | inventory_parser.py:297-360 | the type found is an `action_verbs` key, a transaction type, or the target of an alias whose target is a transaction type; with none the text is unchanged (which tier wins is stated by VerbBeatsTypeName and TypeNameBeatsAlias) |
| VerbExtraction.VerbBeatsTypeName | inventory_parser.py:298-319 | when any configured verb occurs as a whole word, the result is tier 1's winner: the first such verb's type and the line with its leftmost match cut out, ahead of the type-name and alias tiers |
| VerbExtraction.AliasTierWins | inventory_parser.py:321-333 | when no configured verb occurs and no transaction type matches, a matching alias key whose target is a transaction type makes the type the target of such an alias with a key at least as long, and the rest is the line with that key's leftmost match cut out |
| VerbExtraction.TypeNameBeatsAlias | inventory_parser.py:306-319 | when no configured verb occurs and a transaction type matches, the type found is a transaction type at least as long as that one and the rest is the line with its leftmost match cut out; the alias tier is not reached |
| SupplierExtraction.MentionsFromWordIn | inventory_parser.py:138-139 | the guard holds exactly when some from-word occurs in the lower-cased line |
| SupplierExtraction.ShortSupplierAt | inventory_parser.py:369-370 | a match is the word, then only dashes and whitespace up to the group, and only whitespace after the group; no word, no match |
| SupplierExtraction.LongSupplierAt | inventory_parser.py:371-372 | a match is the word at a word boundary, then at least one whitespace character up to the group, and only whitespace after the group; no word, no match |
| SupplierExtraction.FirstSupplier | inventory_parser.py:373 | `re.search` for a from-word's pattern: the leftmost position where it matches; none means no position matches |
| SupplierExtraction.SupplierFrom | inventory_parser.py:368-378 | the first from-word, in configured order, whose first match reads a name that is no known location or default source, compared lower-cased; every earlier word is passed over |
| SupplierExtraction.ExtractSupplierInfo | inventory_parser.py:363-379 | no supplier exactly when no from-word yields one, and then the text is unchanged; otherwise the supplier and the rest are the stripped group and the stripped text before the match of the first word that yields one; a supplier is never a known place |
| SupplierExtraction.SupplierRead | inventory_parser.py:363-379 | `<pre> <word> <name>` gives the supplier `name` and the rest `pre`, stripped, when `pre` holds no match of the word, no earlier from-word occurs, and `name` is stripped and no known place |
| QuantityExtraction.PluralSuffix | inventory_parser.py:457-460 | the plural ending is `es` exactly after `x`, `s`, `sh` or `ch`, and `s` otherwise |
| QuantityExtraction.ContainerVariants | inventory_parser.py:451-461 | the container name itself comes first; a plural form is added exactly when its last word is ASCII |
| QuantityExtraction.ExtractContainer | inventory_parser.py:414-439 | nothing is found exactly when no spelling of any container name occurs, and then the text is unchanged; a container found is a configured container or the target of a container alias |
| QuantityExtraction.LongestContainerWins | inventory_parser.py:425-437 | the container found belongs to a name spelled in the text, and no longer container name is spelled in it |
| QuantityExtraction.ConvertContainer | inventory_parser.py:464-469 | a conversion happens exactly when a factor is configured for the item and container, and gives quantity times factor |
| QuantityExtraction.FirstProduct | inventory_parser.py:396 | `re.search` for `A x B`: the leftmost position where the product pattern matches |
| QuantityExtraction.ExtractQty | inventory_parser.py:382-411 | the leftmost product `AxB` gives `A*B`; failing that, the leftmost whole number gives itself; with neither, no container is taken and the text is unchanged; a container found is a configured container or an alias target |
| QuantityExtraction.ProductRead | inventory_parser.py:395-401 | the text `AxB` reads as quantity `A*B`, and leaves nothing when no container is found |
| QuantityExtraction.NumberRead | inventory_parser.py:403-409 | a bare number reads as itself, and leaves nothing when no container is found |
| QuantityExtraction.RemoveFiller | inventory_parser.py:476-483 | the filler words are removed one after the other, then whitespace is collapsed: the result has no whitespace at either end |
| QuantityExtraction.NoFillerNormalizes | inventory_parser.py:476-483 | a text in which no filler word stands as a whole word only has its whitespace collapsed and its ends stripped |
| QuantityExtraction.FillerPhraseSurvives | inventory_parser.py:479-483 | removal is one pass per entry before the whitespace is collapsed, so a filler phrase holding a space can stand as a whole word in the result: `a b` removed from `a a b b` leaves `a b` |
| Ordering.LongestFirst | inventory_parser.py:502 | `sorted(names, key=len, reverse=True)`: a permutation of the names, longest first |
| Ordering.LongestKeyFirst | inventory_parser.py:323 | `sorted(items, key=len(key), reverse=True)`: a permutation of the pairs, longest key first |
| Ordering.SortDescStable | inventory_parser.py:502 | Python's sort is stable: for every length, the names of that length come out in their input order |
| ItemMatching.SubstringTier | inventory_parser.py:501-504 | the first item in longest-first order that occurs in the text; no earlier item occurs; none means no item occurs |
| ItemMatching.LongestSubstringHit | inventory_parser.py:501-504 | when an item occurs in the text, the substring tier hits one at least as long |
| ItemMatching.AliasSubstringTier | inventory_parser.py:506-509 | the alias key found occurs in the text ignoring case, no longer key does, and the result is its target, a known item; nothing is found exactly when no key occurs |
| ItemMatching.LooseNameTier | inventory_parser.py:511-521 | the item returned is configured and equals the text up to a trailing `s`, or starts with the text; such a plural match is preferred whenever one exists; nothing is found exactly when no item passes either test |
| ItemMatching.FuzzyItem | inventory_parser.py:523-530 | the fuzzy tier only returns configured items or alias targets |
| ItemMatching.SpanFrom | inventory_parser.py:532-548 | the word-span tier only returns configured items or alias targets |
| ItemMatching.MatchItem | inventory_parser.py:490-550 | blank text matches nothing; a match always names a configured item or an alias target |
| ItemMatching.ItemSubstringWins | inventory_parser.py:501-504 | when an item occurs in the text ignoring case, the match is an item occurring in the text, at least as long, and its raw text is the item |
| TookLines.TookMatch | inventory_parser.py:111 | a `took X out of Y` match carries the total `Y` as a digit string |
| TookLines.TookRead | inventory_parser.py:111 | a line written `took X out of Y rest` is read back as `X`, `Y` as written and `rest` |
| LineParsing.TookRecord | inventory_parser.py:112-120 | a `took` line keeps its raw text, takes `X` as quantity, notes `had Y total`, and sets no container, location, direction, type or date; an item found is a known item with its raw text |
| LineParsing.ContextStage | inventory_parser.py:122-142 | only the date, location, direction, type and note are set; the date is valid; a location is non-empty and comes with a direction; a type is non-empty |
| LineParsing.FillContext | inventory_parser.py:122-142 | the date, location, verb and supplier steps compute what the specification function `ContextStage` says |
| LineParsing.ItemStage | inventory_parser.py:152-159 | either a known item with its raw text is set, or the non-empty unmatched text is kept; nothing else changes |
| LineParsing.Trial | inventory_parser.py:165-176 | a successful trial number yields a known, non-empty item |
| LineParsing.RetryFrom | inventory_parser.py:161-180 | the multi-number retry leaves the record unchanged, or adopts a number with a known item and keeps every context field |
| LineParsing.Retry | inventory_parser.py:161-180 | the retry loop, including its early `break`, computes `RetryFrom` |
| LineParsing.CountStage | inventory_parser.py:144-180 | after the quantity, item and retry steps, any item is known and has raw text; unmatched text is non-empty; the context fields are untouched |
| LineParsing.FillCount | inventory_parser.py:144-180 | the quantity and item steps compute what `CountStage` says |
| LineParsing.ConvertStage | inventory_parser.py:182-187 | the record changes exactly when it has an item, a container, a quantity and a configured factor; then the quantity becomes quantity times factor, the container is cleared and nothing else changes |
| LineParsing.ParseLineSpec | inventory_parser.py:96-189 | a parsed line keeps its raw text and has no batch; an item is known and has raw text; a date is valid; a location has a direction; an item with a container and a configured factor is always converted |
| LineParsing.ParseLine | inventory_parser.py:96-189 | `_parse_line` computes `ParseLineSpec` |
| Merging.Combine | inventory_parser.py:576-599 | a quantity line plus the next item line gives one record with both; the item comes from the second line; the raw lines are joined by a newline; it is converted exactly when a factor is configured |
| Merging.ApplyContext | inventory_parser.py:601-612 | a context line changes only the previous record's type and note; a type already set is kept, and a note is replaced |
| Merging.MergeLines | inventory_parser.py:567-617 | the merge loop computes `Merge` |
| Merging.MergeQtyThenItem | inventory_parser.py:576-599 | a quantity-only line followed by an item-only line merges into one record |
| Merging.MergeLength | inventory_parser.py:567-617 | merging never adds records; the result is empty exactly when the input is |
| Merging.MergeItems | inventory_parser.py:567-617 | merging neither loses nor invents items: the item names keep their order |
| Merging.MergeFromAmendsOnly | inventory_parser.py:601-612 | a record already merged later changes only in type and note, and a type it has is never overwritten |
| Merging.MergeSound | inventory_parser.py:567-617 | merging keeps every record well-formed: a known item, a valid date, a location with its direction |
| Broadcasting.Seen | inventory_parser.py:631-636 | the running context takes each stated location with its direction, each stated type and each date |
| Broadcasting.ForwardPass | inventory_parser.py:628-643 | the forward loop fills each record from the context of the records up to it |
| Broadcasting.LastContext | inventory_parser.py:645-653 | the second loop finds the context after the whole message |
| Broadcasting.FillAll | inventory_parser.py:655-661 | the third loop fills every record from that last context, and from nothing else |
| Broadcasting.BroadcastContext | inventory_parser.py:624-661 | `_broadcast_context` computes `Broadcast` on the list, in place |
| Broadcasting.BroadcastKeeps | inventory_parser.py:624-661 | only location, direction, type and date change, and a value a record states is never overwritten |
| Broadcasting.BroadcastTotal | inventory_parser.py:645-661 | when any record states a location, type or date, every record has one afterwards |
| Broadcasting.BroadcastPairsStated | inventory_parser.py:632-657 | a location and its direction travel together: each record's pair is its own or one stated in the message |
| Broadcasting.BroadcastNearestBefore | inventory_parser.py:628-643 | a record without a location takes the nearest one stated before it |
| Broadcasting.BroadcastLeading | inventory_parser.py:645-661 | records before the first stated location take the last location of the message |
| Broadcasting.BroadcastDateStated | inventory_parser.py:635-659 | every date a record has afterwards is its own or one stated in the message |
| Broadcasting.BroadcastSound | inventory_parser.py:624-661 | broadcasting keeps every record well-formed |
| Results.IsNote | inventory_parser.py:701-708 | a line is a note exactly when it is non-empty and its letters make up more than 0.3 of it; a line made only of letters is a note; a line without letters never is |
| Results.Classify | inventory_parser.py:675-690 | a record is a transaction exactly when it has an item; a number without an item is unparseable; context lines have no number; notes pass the letter test |
| Results.Transactions | inventory_parser.py:675-677 | the transactions are records of the input that have an item |
| Results.Partition | inventory_parser.py:675-690 | every record lands in exactly one of transactions, notes, unparseable lines and context lines |
| Results.TransactionsSound | inventory_parser.py:675-677 | the transactions of well-formed records are well-formed |
| Results.GenerateResult | inventory_parser.py:671-698 | `_generate_result` computes `GenerateSpec`: rows of the numbered transactions, then the notes and unparseable lines in order |
| Results.GeneratedRowsSound | inventory_parser.py:671-698 | every generated row names a known item and has a valid date and a batch of at least 1 |
| Batching.Step | inventory_parser.py:719-730 | the batch grows by at most one, and exactly when a stated destination or date differs from the last one stated; stated values are remembered |
| Batching.Assigned | inventory_parser.py:711-730 | every record keeps its place and changes only in its batch |
| Batching.AssignOne | inventory_parser.py:719-730 | one loop step writes that record's batch and changes no other record |
| Batching.AssignBatches | inventory_parser.py:711-730 | `_assign_batches` computes `Assigned` on the list, in place |
| Batching.BatchBounds | inventory_parser.py:714-726 | the first batch is 1, record `k` is in a batch of at most `k+1`, and consecutive batches differ by 0 or 1 |
| Batching.StateRemembers | inventory_parser.py:727-730 | the destination and date compared against are the last ones stated |
| Batching.NoValuesSameBatch | inventory_parser.py:722-726 | a record with no location and no date stays in the previous batch |
| Batching.OneDestinationOneBatch | inventory_parser.py:711-730 | a message with one destination and one date is a single batch |
| Batching.AssignedSound | inventory_parser.py:711-730 | numbering batches keeps every record well-formed |
| RowGeneration.BaseRow | inventory_parser.py:734-750 | the shared row: the record's date or today, its item, its batch or 1, its note, and the container with the unconverted quantity when there is one |
| RowGeneration.ItemToRows | inventory_parser.py:733-787 | a transfer gives two rows that balance to zero, with the named place as giver for `from` and as receiver otherwise; a non-zero-sum type, receipt at the default source and no location each give one row |
| RowGeneration.AllRows | inventory_parser.py:694-696 | each transaction gives one or two rows |
| RowGeneration.AllRowsFrom | inventory_parser.py:694-696 | every row carries the item, batch and date of some transaction |
| Pipeline.StripMetadata | inventory_parser.py:80-89 | after removing the WhatsApp markers the text has no whitespace at either end |
| Pipeline.StripMetadataPlain | inventory_parser.py:86-89 | text without a `<` is only stripped |
| Pipeline.Lines | inventory_parser.py:69 | every line kept is non-empty and stripped |
| Pipeline.LinesOfJoined | inventory_parser.py:69 | stripped non-empty lines joined by newlines split back into the same lines |
| Pipeline.ParseAll | inventory_parser.py:70 | one well-formed record per line, each keeping its line as raw text |
| Pipeline.ParseLines | inventory_parser.py:70 | the comprehension computes `ParseAll` |
| Pipeline.ParseRecords | inventory_parser.py:68-71 | stripping, splitting, parsing and merging compute `MergedRecords` |
| Pipeline.Parse | inventory_parser.py:64-73 | `parse` computes `ParseSpec` |
| Pipeline.ParsedRowsSound | inventory_parser.py:64-73 | every row `parse` produces names a known item and has a valid date and a batch of at least 1 |
| Pipeline.ParseKeepsItems | inventory_parser.py:64-73 | the transactions carry exactly the items found on the lines, in line order |
| Partners.PartnerOf | inventory_core.py:495-516 | the partner is the first other row with the same batch and item and a quantity of opposite sign; there is none exactly when no such row exists |
| Partners.FindPartner | inventory_core.py:495-516 | `find_partner` computes `PartnerOf` |
| Partners.NoPartnerWithoutKeys | inventory_core.py:501-506 | a row without batch, item or quantity, or with quantity 0, has no partner |
| Partners.PairIsMutual | inventory_core.py:495-516 | two rows that only oppose each other are each other's partners |
| Partners.TransferRowsArePartners | inventory_parser.py:760-778 | the two rows of a transfer are each other's partners |
| Partners.ApplyEdit | inventory_core.py:525-530 | an edit of item, date, type or batch is copied to the partner; a quantity edit gives the partner the negated quantity; other fields leave it unchanged |
| Partners.UpdatePartner | inventory_core.py:519-530 | `update_partner` changes only the partner row, in place, and changes nothing when there is no partner |
| Partners.EditKeepsPair | inventory_core.py:519-530 | after the same edit on a row and its partner, they still oppose each other, and a quantity edit keeps their sum at zero |
| Formatting.FormatDate | inventory_core.py:321-324 | a date prints as `YYYY-MM-DD`; a missing date prints as `???` |
| Formatting.FormatQty | inventory_core.py:327-332 | a quantity prints as non-empty text, which is `???` exactly when the quantity is missing |
| Formatting.FormatCell | inventory_core.py:343-357 | the date cell uses `format_date`, the notes cell is empty without notes, and a cell fails only for a `_raw_qty` value |
| Formatting.Cells | inventory_core.py:382 | one cell per field in field order; it fails exactly when some cell fails |
| Formatting.Lines | inventory_core.py:380-383 | one line per row, its cells joined by tabs; it fails exactly when some row has a failing cell |
| Formatting.FormatRowsForClipboard | inventory_core.py:369-385 | no rows give the empty text; it fails exactly when some row has a failing cell |
| Formatting.ClipboardReadsBack | inventory_core.py:369-385 | splitting the clipboard text on newlines and then on tabs gives back every row's cells |
| Formatting.RowHasWarning | inventory_core.py:335-340 | with the default required fields, a row warns exactly when it lacks a type or a location; with no required field it never warns; a required type that is missing always warns |
| Formatting.TransferRowsComplete | inventory_core.py:335-340 | the rows of a transfer never show the warning |
| Editing.ProductMatch | inventory_core.py:434 | a product match covers the whole text, which starts and ends with digits |
| Editing.EvalQty | inventory_core.py:431-441 | a value is found only in text ending in a digit once stripped; blank text gives nothing |
| Editing.EvalProduct | inventory_core.py:434-436 | `AxB`, `A×B` and `A*B` all evaluate to `A*B` |
| Editing.NoDigitNoQty | inventory_core.py:431-441 | text without a digit evaluates to nothing |
| Editing.EvalFormatQty | inventory_core.py:431-441 | `eval_qty` reads back every integer `format_qty` prints |
| Editing.IsoDate | inventory_core.py:482-486 | the ISO tier only returns valid calendar dates |
| Editing.ParseDate | inventory_core.py:448-488 | any date parsed is a valid calendar date |
| Editing.ParseFormatDate | inventory_core.py:448-488 | `parse_date` reads back every date `format_date` prints |
| Editing.ParseDottedDate | inventory_core.py:452-460 | a date of this century written `D.M.YY` reads back exactly |
| Editing.ParseSlashedDate | inventory_core.py:462-470 | a date of this century written `M/D/YY` reads back exactly: the slashed form is month first |
| Editing.ParseSixDigitDate | inventory_core.py:472-480 | a date of this century written `DDMMYY` reads back exactly |
| Editing.NoDigitNoDate | inventory_core.py:448-488 | text without a digit is no date |
| Editing.ImpossibleDottedDate | inventory_core.py:448-488 | text whose dotted groups name no calendar date (such as `31.2.24`) is no date at all: no later tier reads it |
| Editing.ImpossibleSlashedDate | inventory_core.py:448-488 | text whose slashed groups, read month first, name no calendar date is no date at all |
| Options.GetClosedSetOptions | inventory_core.py:289-314 | the location field offers the configured list plus the default source, put first when missing; every other field offers exactly its configured list |
| Options.LegacyMatchesDefault | inventory_core.py:291-313 | the fallback for the three built-in fields gives what the default `field_options` mapping gives |
| Options.UnknownFieldHasNoOptions | inventory_core.py:303-314 | a field that is neither mapped nor built in has no options |
| Learning.AliasPrompts | inventory_core.py:543-562 | at most one prompt per edited row |
| Learning.CheckAliasOpportunity | inventory_core.py:537-564 | `check_alias_opportunity` computes `AliasPrompts` |
| Learning.AliasPromptsExactly | inventory_core.py:543-562 | a pair is proposed exactly when some edited row's original word is new to the items and aliases, and differs ignoring case from the row's real item |
| Learning.AliasLearned | inventory_core.py:557-558 | once the proposed alias is saved, the same edits propose nothing for that word |
| Learning.CheckConversionOpportunity | inventory_core.py:571-594 | `check_conversion_opportunity` computes `ConversionPrompts` |
| Learning.ConversionPromptsSound | inventory_core.py:577-592 | every proposal comes from a row and has no configured factor yet, and none is proposed twice |
| Learning.ConversionPromptsComplete | inventory_core.py:577-592 | every row's item and container without a configured factor is proposed |

## Left out

- Text is ASCII for case folding (`str.lower`) and for `\d`. Non-ASCII characters that are not whitespace count as word characters, which covers the Hebrew the messages use.
- `difflib`'s similarity ratio is a parameter, `sim`. The model proves what the cutoffs and the tie-breaking select, not the ratio arithmetic.
- The current date is a parameter of `parse`.
- The clipboard I/O of `copy_to_clipboard`, the terminal and web interfaces, loading and saving the configuration, and the UI strings are left out. They are I/O.
- `get_closed_set_fields`, `get_field_order` and `get_required_fields` are resolved into the configuration datatype. They have no member of their own.
- `_row_to_cells` is left out: it is display numbering around `_format_cell`, which `Formatting.Cells` covers.
- `empty_row` is left out.
- QuantityExtraction.ExtractQty: the `half a [container]` branch and its quantity 0.5 are left out, because quantities are integers in this model.
- Editing.EvalQty: only products and optionally signed integer literals are evaluated. The other forms `float()` accepts are left out, because the model has no floating point. These are decimals, exponents, underscores, `inf`/`nan`, rounding above 2^53, and the `OverflowError` case.
- Editing.ParseDate: `date.fromisoformat` is modelled for `YYYY-MM-DD` only. It does not cover the other ISO 8601 forms that newer Python versions accept.
- Formatting.FormatDate: `%Y` is zero-padded to four digits. Years below 1000 print differently on some platforms.
- Formatting.FormatCell: a `_raw_qty` value is an integer in a row, so the `TypeError` `str.join` raises on it becomes a `None` cell. `Formatting.FormatRowsForClipboard` then gives `None`.
- Formatting.RowHasWarning: a missing configuration and an empty one both behave as the defaults, because both fall back to the same required fields.
- QuantityExtraction.RemoveFiller: a configured filler entry that starts with a backslash is treated as a plain word, not as a regular expression. The default list is modelled as the plain words its patterns match.
- Options.ConfigList: only the configuration keys that hold lists or dicts are readable as option lists. Any other key gives no options.
- Learning.CheckAliasOpportunity: row indices in `original_tokens` are natural numbers. Negative indices, which Python would count from the end, are not modelled.
- Learning.CheckConversionOpportunity: a row whose item is `None` is skipped, like a row with item `???`. The parser never produces such a row.
- Partners.PartnerOf: the search takes the first opposing row. When the same item occurs twice in one batch, a row can be paired with the wrong half of the other transfer. The model reproduces this and does not correct it.
- Fuzzy.FuzzyResolve: the result of the fuzzy tier is only stated to be a candidate or an alias target. Which one is chosen depends on the abstract ratio.
- QuantityExtraction.ExtractContainer: the source sorts a Python `set` of names by length, so names of equal length are tried in string-hash order, which varies from run to run. The model tries equal-length names in configuration order: configured containers first, then container aliases.
- Configuration.Config.Valid, QuantityExtraction.ExtractContainer: a container name that is empty or all whitespace makes `_container_variants` raise `IndexError` on `words[-1]`. The model requires every container name to hold a word, so it does not model that crash.
- Formatting.FormatCell: a row whose `batch` key is present and holds `None` prints `None` in the source. In the model a `None` batch means the key is absent, which prints an empty cell.
- Regular expressions are written out by hand. A greedy `\s+` is assumed never to need backtracking; the names matched never start with whitespace.
