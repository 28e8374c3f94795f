# Numbering, cascade and offline sync of the inspection app, in Dafny

This project models the core of a field-inspection application
("fiscalização") used in compliance audits of utility units. Inspectors
answer a checklist per inspected unit ("unidade fiscalizada"). A NAO
answer to an item that generates non-conformities cascades into a
Non-Conformity (NC), a Determination (D) and/or a Recommendation (R). Every
constatação (C), NC, D and R carries a label such as `C7` or `NC3`, numbered
per inspection. The application works offline: writes go to local tables
and a queue of pending operations, which a sync loop later replays against
the remote store.

The model covers:

- the three ways labels are allocated:
  - max-based (`MaxNumbering`);
  - counter-based from cross-unit offsets (`CounterNumbering`, `CrossUnitOffsets`);
  - count-based (`LocalStore.CalcularProximaNumeracao`, `InspectionPage`);
- the cascades that create or retract NC/D/R (`LiveCascade`, `BatchCascade`, `AnswerCascade`);
- the finalize and renumber planners (`UnitFinalize`, `Renumber`);
- the texts of NC and D sentences, each defined once (`Phrasing`);
- the local-first data service and its upload (`Records`, `LocalStore`, `SyncUpload`);
- the browser's pending-operation store and the sync drain (`OfflineStorage`, `SyncManager`);
- the finalised-inspection lock (`FiscalizacaoLock`) and the NC editor (`EditNc`);
- the checklist import (`ImportChecklist`) and the cascading inspection delete (`DeleteInspection`);
- the data logic of the unit inspection page (`InspectionPage`).

Shared modules:

- `Wrappers` has `Option` and `Result`.
- `Text` gives the JavaScript string semantics the code relies on: `trim`, `includes`, `replace` of the first occurrence, `parseInt`, `split` and number printing.
- `Entities` has the typed records.

Conventions:

- Remote stores are the results of their queries, in query order.
- Ids the store or `crypto.randomUUID()` hands out are given as parameters.
- Where a remote call can fail, its outcome is a parameter: a list of outcomes, the ids it returns, or `fault`, the number of writes done before some call throws. The members that take one are listed under "Left out".
- Planners return the ordered list of writes they would make.
- Dates are integer day numbers.

## Model

| member | source | states |
|---|---|---|
| FiscalizacaoLock.CheckDirect | src/components/utils/fiscalizacaoLock.jsx:19-23 | throws, with the lock message, exactly when the inspection is present and its status is 'finalizada'; null or undefined passes |
| FiscalizacaoLock.FirstWithId | src/components/utils/fiscalizacaoLock.jsx:8-9 | the record read back is a stored inspection with the requested id, and none is returned only when no stored inspection has it |
| FiscalizacaoLock.Check | src/components/utils/fiscalizacaoLock.jsx:5-14 | a falsy id returns without querying; otherwise the store is queried and the check throws exactly when the first match is finalised |
| FiscalizacaoLock.CheckAgreesWithDirect | src/components/utils/fiscalizacaoLock.jsx:8-13 | with a truthy id, the querying check gives the same outcome as the direct check on the first match |
| FiscalizacaoLock.UnknownIdPasses | src/components/utils/fiscalizacaoLock.jsx:9-11 | when no stored inspection carries the id, the check does not throw |
| FiscalizacaoLock.MissingInspectionPasses | src/components/utils/fiscalizacaoLock.jsx:20 | the direct check on a missing inspection does not throw |
| CounterNumbering.GeneratedLabelReadsBack | src/components/utils/numerationHelper.jsx:27-41 | each `gerarNumero*` label starts with its series prefix, and the text after it parses back as that counter plus one |
| CounterNumbering.GeneratorsReadOwnField | src/components/utils/numerationHelper.jsx:27-41 | two counter records give the same label for a series exactly when they agree on that series' field, so the other fields are irrelevant |
| CounterNumbering.CalcularProximaNumeracao | src/components/utils/numerationHelper.jsx:5-22 | the server's counters are returned unchanged when `success` is true; zero counters are returned when it is false or the call throws |
| CounterNumbering.FallbackGivesFirstLabels | src/components/utils/numerationHelper.jsx:12-21 | after the fallback, the four generators give C1, NC1, D1 and R1 |
| MaxNumbering.NextAfter | src/components/offline/numerationHelper.jsx:31 | `max + 1` over the parsed numbers, or 1 when there are none: the result is above every number and one more than some number |
| MaxNumbering.NextAfterDependsOnValues | src/components/offline/numerationHelper.jsx:31 | the next number depends only on which numbers occur, not on their order or repetition |
| MaxNumbering.NumbersMembership | src/components/offline/numerationHelper.jsx:26-29 | a number is among the parsed numbers exactly when some record parses to it |
| MaxNumbering.NextByScan | src/components/offline/numerationHelper.jsx:31 | a single scan keeping the running maximum computes the same next number |
| MaxNumbering.GetNumerationCounters | src/components/offline/numerationHelper.jsx:4-23 | each of the three counters is the numeric part of the label the matching single generator returns on the same records |
| MaxNumbering.NoneParsedGivesOne | src/components/offline/numerationHelper.jsx:26-31 | when no record parses, the next number is 1 |
| MaxNumbering.AllZeroGivesOne | src/components/offline/numerationHelper.jsx:36-40 | when every record reads as 0, the next number is 1 |
| MaxNumbering.NextAboveAll | src/components/offline/numerationHelper.jsx:26-31 | the allocated number is above every parsed existing number and follows one of them directly |
| MaxNumbering.SameNumbersSameNext | src/components/offline/numerationHelper.jsx:26-31 | two record lists with the same parsed numbers allocate the same next number |
| MaxNumbering.UnparsedIgnored | src/components/offline/numerationHelper.jsx:27-29 | adding a record whose label does not parse leaves the next number unchanged |
| MaxNumbering.OrderIrrelevant | src/components/offline/numerationHelper.jsx:31-32 | any permutation of the records gives the same next number |
| MaxNumbering.AddingNextAdvances | src/components/offline/numerationHelper.jsx:31-32 | adding a record that carries the allocated number moves the next number on by exactly one |
| MaxNumbering.ConstatacaoOfLabel | src/components/offline/numerationHelper.jsx:27-29 | a record labelled `C<n>` parses back to n |
| MaxNumbering.FirstConstatacaoIsC1 | src/components/offline/numerationHelper.jsx:25-32 | `gerarNumeroConstatacao` returns "C1" when no record carries a parsable `numero_constatacao` |
| MaxNumbering.NextExceedsEveryExisting | src/components/offline/numerationHelper.jsx:26-32 | the next C number is above every parsed existing C number |
| MaxNumbering.GapIsNotRefilled | src/components/offline/numerationHelper.jsx:31-32 | with `C<n>` and `C<n+2>` present, the next label is `C<n+3>`: the gap at n + 1 is not refilled |
| MaxNumbering.UnparsableRecordIsIgnored | src/components/offline/numerationHelper.jsx:27-29 | a record with a null, empty or non-numeric label does not change the next C label |
| MaxNumbering.AbsentLabelReadsZero | src/components/offline/numerationHelper.jsx:37-46 | a missing NC or D label reads as 0 |
| MaxNumbering.UnlabelledNcsGiveOne | src/components/offline/numerationHelper.jsx:35-41 | NCs that all lack a number give next NC number 1 |
| MaxNumbering.UnlabelledDetsGiveOne | src/components/offline/numerationHelper.jsx:44-50 | determinations that all lack a number give next D number 1 |
| MaxNumbering.MissingLabelsReadAsZero | src/components/offline/numerationHelper.jsx:35-51 | records that all lack numbers still give NC1 and D1 |
| MaxNumbering.PermutationInvariant | src/components/offline/numerationHelper.jsx:31-32 | the next C label is the same for any permutation of the answers |
| MaxNumbering.AppendingReturnedLabelAdvancesByOne | src/components/offline/numerationHelper.jsx:31-32 | storing an answer with the returned label and asking again yields exactly the next integer |
| CrossUnitOffsets.FindIndex | functions/calcularNumeracao.ts:28 | `findIndex`: the first position holding the id, or -1 exactly when no unit carries it |
| CrossUnitOffsets.SliceTo | functions/calcularNumeracao.ts:29 | `slice(0, end)`: a prefix of the list, a negative end counting from the back |
| CrossUnitOffsets.BeforeIsPrefix | functions/calcularNumeracao.ts:28-29 | with the id present, the earlier units are those strictly before its first occurrence; with it absent, every unit except the last |
| CrossUnitOffsets.OffsetsSplit | functions/calcularNumeracao.ts:45-73 | the two loops together give the reference sum: cached totals plus record counts |
| CrossUnitOffsets.OffsetsAppend | functions/calcularNumeracao.ts:45-73 | the offsets of a concatenation of unit lists are the sum of the parts' offsets |
| CrossUnitOffsets.FinalizedRecords | functions/calcularNumeracao.ts:55-70 | a finalised unit adds the lengths of its two limited D and R queries |
| CrossUnitOffsets.FinalizedContribution | functions/calcularNumeracao.ts:45-70 | a finalised unit adds its cached totals, a missing total reading as 0, and the lengths of its D and R queries |
| CrossUnitOffsets.NonFinalizedAddsZero | functions/calcularNumeracao.ts:43 | a unit whose status is not 'finalizada' contributes 0 to every counter |
| CrossUnitOffsets.NonFinalizedContributeNothing | functions/calcularNumeracao.ts:43 | removing a unit that is not finalised, wherever it stands, does not change the offsets |
| CrossUnitOffsets.OffsetsOfFinalized | functions/calcularNumeracao.ts:43-73 | summing over the finalised units only gives the same offsets as the reference sum over all earlier units |
| CrossUnitOffsets.FirstUnitStartsAtZero | functions/calcularNumeracao.ts:31-36 | for the inspection's first unit there are no earlier units and every counter is 0 |
| CrossUnitOffsets.FinalizedUnitAdds | functions/calcularNumeracao.ts:45-70 | a finalised unit with known totals and query lengths adds exactly those |
| CrossUnitOffsets.ThreeUnitsOfOneInspection | functions/calcularNumeracao.ts:21-29 | the third unit of an inspection counts the first two, in creation order |
| CrossUnitOffsets.AddCachedTotals | functions/calcularNumeracao.ts:45-48 | the first loop computes the sum of the cached totals |
| CrossUnitOffsets.CountRecords | functions/calcularNumeracao.ts:53-74 | the second loop computes the sum of the D and R query lengths |
| CrossUnitOffsets.CalcularNumeracao | functions/calcularNumeracao.ts:3-85 | 401 without a user; 400 when either id is falsy; 500 when a read fails; otherwise success with the reference sum over the earlier units |
| Phrasing.NcSentenceInjective | functions/gerarNCsDaUnidade.ts:53 | NC sentences composed with different constatação labels differ, so a sentence identifies its constatação |
| Phrasing.DetSentenceStartsWithPrefix | functions/dataService.ts:567 | every batch, finalize and renumbering determination sentence starts with "Para sanar a {NC} ", and the renumbering one ends with ". Prazo: 30 dias." |
| Phrasing.NamedConstatacao | functions/renumerarConstatacoes.ts:193 | when a description yields a label, the description opens with the NC sentence's opening followed by that label and a space |
| Phrasing.NamedConstatacaoOfSentence | functions/criarNcComDeterminacaoBatch.ts:66 | an NC sentence names the constatação label it was composed with, whenever that label has no space |
| LiveCascade.DeleteAll | src/components/offline/respostaHandler.jsx:133-135 | one determination delete per linked determination, in the order they were listed |
| LiveCascade.CreateCascade | src/components/offline/respostaHandler.jsx:99-126 | the NC is created first, and a determination follows exactly when the item has a truthy determination text |
| LiveCascade.SaveAndCascade | src/components/offline/respostaHandler.jsx:60-143 | when every store call succeeds, the answer write comes first and is the only answer write |
| LiveCascade.Executar | src/components/offline/respostaHandler.jsx:4-143 | no awaited call is caught: the call rejects exactly when a call throws within its writes, keeping as many writes as were made; otherwise the answer is written first |
| LiveCascade.ThrowKeepsEarlierWrites | src/components/offline/respostaHandler.jsx:27-138 | a store call that throws keeps exactly the writes made before it, in order, and the call rejects; with no throw the whole cascade stands |
| LiveCascade.NumberIffAnswered | src/components/offline/respostaHandler.jsx:16-39 | NA answers get no constatação number; SIM and NAO answers always get a truthy one |
| LiveCascade.RenumberingKeepsExisting | src/components/offline/respostaHandler.jsx:21-24 | re-answering an item whose cached answer already has a number reuses that number |
| LiveCascade.NewNumberIsMaxPlusOne | src/components/offline/respostaHandler.jsx:26-37 | a fresh number is above every C number parsed from the unit's stored answers, and is C1 when none parses |
| LiveCascade.QuestionTextIsTrimmed | src/components/offline/respostaHandler.jsx:46-47 | without a template, the text is the question with its first '?' removed, then trimmed |
| LiveCascade.TemplateTextWins | src/components/offline/respostaHandler.jsx:41-46 | NA gives ''; a non-empty SIM or NAO template of the chosen answer is used verbatim |
| LiveCascade.ExistingIsForItem | src/components/offline/respostaHandler.jsx:21-61 | the cached answer found belongs to the item; none is found only when the cache has no answer for it |
| LiveCascade.AnswerIsUpserted | src/components/offline/respostaHandler.jsx:60-68 | an existing cached answer is updated under its id; otherwise one answer is created under a new id |
| LiveCascade.LinkedSearch | src/components/offline/respostaHandler.jsx:83 | the linked-NC search finds nothing exactly when no stored NC points at the saved answer |
| LiveCascade.NcCreatedIff | src/components/offline/respostaHandler.jsx:83-86 | an NC is created exactly when the answer is NAO, the item's `gera_nc` is true, and no NC is linked to the answer yet |
| LiveCascade.TextoNcStartsWithSentence | src/components/offline/respostaHandler.jsx:94-96 | the NC text starts with "A Constatação {C} não cumpre o disposto no {artigo or 'regulamento aplicável'}." |
| LiveCascade.CreatedNc | src/components/offline/respostaHandler.jsx:87-128 | the created NC points at the saved answer, is stored with the number `NC{n}` where n is one above every stored NC number, carries the item's NC text, and the result is 'nc_criada' with that number |
| LiveCascade.DeterminationIffNc | src/components/offline/respostaHandler.jsx:108-109 | a determination is created exactly when the NC is created and the item has a truthy determination text |
| LiveCascade.DeterminationFollowsNc | src/components/offline/respostaHandler.jsx:110-125 | the determination comes after its NC, points at it, reads "Para sanar {NC}, " with the template's first letter lower-cased, has a 30-day deadline, and is stored with the number `D{n}` where n is one above every stored D number; its NC is stored as `NC{m}` likewise |
| LiveCascade.DeletionShape | src/components/offline/respostaHandler.jsx:130-140 | a retraction writes the answer, one delete per linked determination, then the NC delete |
| LiveCascade.RetractionDeletesDeterminationsFirst | src/components/offline/respostaHandler.jsx:130-140 | when a linked NC is no longer required, every determination of that NC is deleted before the NC, and the result is 'nc_deletada' |
| LiveCascade.NothingElseWritten | src/components/offline/respostaHandler.jsx:143 | otherwise only the answer is written and the result is 'sem_nc' |
| LiveCascade.NaoPayloadIsNumbered | src/components/offline/respostaHandler.jsx:20-55 | a NAO payload always carries a constatação number |
| BatchCascade.FormatPerguntaIdempotent | functions/criarNcComDeterminacaoBatch.ts:39-42 | formatting a question twice gives the same result as formatting it once |
| BatchCascade.FormatPerguntaEndsWithSemicolon | functions/criarNcComDeterminacaoBatch.ts:39-42 | a formatted question is missing or empty, or its trimmed text ends with ';' |
| BatchCascade.ProcessOne | functions/criarNcComDeterminacaoBatch.ts:21-122 | one input creates at most three records, one per supplied id; a failed create keeps the writes made before it |
| BatchCascade.NcIffGeraNc | functions/criarNcComDeterminacaoBatch.ts:45-74 | the answer comes first and stores `gera_nc` = NAO and a truthy `texto_nc`; an NC is created, pointing at the answer with the sentence "A Constatação {C} não cumpre o disposto no {artigo};", exactly under that condition |
| BatchCascade.DeterminationOrRecommendation | functions/criarNcComDeterminacaoBatch.ts:82-119 | after the NC, a determination is created when `texto_determinacao` is truthy, else a recommendation when `texto_recomendacao` is; never both, and neither without an NC |
| BatchCascade.DeterminationDeadline | functions/criarNcComDeterminacaoBatch.ts:34-98 | the determination points at the NC, reads "Para sanar a {NC} {texto}", and is due `prazo_dias` days after today, 30 when absent |
| BatchCascade.ProcessAll | functions/criarNcComDeterminacaoBatch.ts:18-123 | the loop gives one result per input |
| BatchCascade.ResultsFollowInputs | functions/criarNcComDeterminacaoBatch.ts:18-123 | result i reports input i's item, so results follow input order |
| BatchCascade.CriarNcComDeterminacaoBatch | functions/criarNcComDeterminacaoBatch.ts:3-133 | 401 without a user and 400 for a missing or empty `respostas`, both with no writes; otherwise every input is processed, or 500 with the writes made before the failure |
| UnitFinalize.ItemFor | functions/gerarNCsDaUnidade.ts:33-48 | the item map lookup: none only when no fetched item has the id; otherwise the last fetched item with that id, since later map writes win |
| UnitFinalize.ChecklistSources | functions/gerarNCsDaUnidade.ts:47-69 | the first loop plans only checklist NCs, at most one per answer |
| UnitFinalize.ManualSources | functions/gerarNCsDaUnidade.ts:72-90 | the second loop plans only manual NCs, at most one per finding |
| UnitFinalize.ChecklistSourceIff | functions/gerarNCsDaUnidade.ts:47-51 | an answer gets an NC exactly when it is NAO, has `gera_nc`, has a known item, and that item's `texto_nc` is non-blank |
| UnitFinalize.ManualSourceIff | functions/gerarNCsDaUnidade.ts:72-73 | every manual finding with `gera_nc`, and no other, gets an NC |
| UnitFinalize.PlanNumbering | functions/gerarNCsDaUnidade.ts:42-90 | NCs are numbered NC1, NC2, … in plan order, all checklist NCs before the manual ones; only checklist NCs point at an answer |
| UnitFinalize.PlanNumbersDistinct | functions/gerarNCsDaUnidade.ts:52-74 | no two planned NCs carry the same number |
| UnitFinalize.NcTextNamesConstatacao | functions/gerarNCsDaUnidade.ts:53-75 | the NC text names its source's constatação number and article, the manual article defaulting to 'artigo não especificado'; different manual findings under one article get different texts |
| UnitFinalize.PlanYields | functions/gerarNCsDaUnidade.ts:110-181 | a checklist NC yields a determination when the item's text is non-blank, else a recommendation when that text is, never both; a manual NC yields each independently with a fixed 30-day deadline; the checklist deadline is `prazo_dias || 30` |
| UnitFinalize.Followups | functions/gerarNCsDaUnidade.ts:106-108 | one follow-up decision per planned NC |
| UnitFinalize.DetsFrom | functions/gerarNCsDaUnidade.ts:106-183 | at most one determination per created NC |
| UnitFinalize.RecsFrom | functions/gerarNCsDaUnidade.ts:106-183 | at most one recommendation per created NC |
| UnitFinalize.DetsNumbered | functions/gerarNCsDaUnidade.ts:119-167 | `contadorD` goes up by one per determination: the j-th is D(d + j) |
| UnitFinalize.RecsNumbered | functions/gerarNCsDaUnidade.ts:134-180 | `contadorR` goes up by one per recommendation: the j-th is R(r + j) |
| UnitFinalize.DeterminationsReferenceTheirNc | functions/gerarNCsDaUnidade.ts:106-166 | every determination carries the id created for a planned NC, that NC's number and text, and a due date `prazo` days after today |
| UnitFinalize.NcGetsItsDetermination | functions/gerarNCsDaUnidade.ts:106-130 | each NC that plans a determination has one |
| UnitFinalize.RecommendationsComeFromNcs | functions/gerarNCsDaUnidade.ts:133-180 | each recommendation carries the text and origin of an NC that plans one |
| UnitFinalize.GerarNcsDaUnidade | functions/gerarNCsDaUnidade.ts:3-219 | 401 without a user and 400 without a unit id, both creating nothing; the reported totals are the lengths of the created lists, and `total_constatacoes` counts the SIM/NAO answers with non-blank text plus the manual findings; a 500 never leaves recommendations, leaves determinations only beside NCs, and with NCs left it means a follow-up bulk create failed |
| UnitFinalize.NcNumbersStartAtOne | functions/gerarNCsDaUnidade.ts:42 | a generated run numbers its NCs from NC1, with no cross-unit offset, and pairs each NC with its own created id |
| UnitFinalize.DeterminationNumbersStartAtOne | functions/gerarNCsDaUnidade.ts:43 | a generated run numbers its determinations D1, D2, … with no gap |
| UnitFinalize.RecommendationNumbersStartAtOne | functions/gerarNCsDaUnidade.ts:44 | a generated run numbers its recommendations R1, R2, … with no gap |
| UnitFinalize.RunDeterminationsFollowNcs | functions/gerarNCsDaUnidade.ts:106-183 | in a generated run, every determination names a created NC by id and number, and every NC that plans a determination has one |
| UnitFinalize.GeneratedIff | functions/gerarNCsDaUnidade.ts:8-193 | a run succeeds exactly when there is a user and a unit id, the NC bulk create returns every NC, and each of the determination and recommendation bulk creates that has something to create succeeds |
| UnitFinalize.FailedFollowupKeepsEarlierWrites | functions/gerarNCsDaUnidade.ts:186-217 | a failed determination bulk create is a 500 that keeps exactly the NCs; a failed recommendation bulk create is a 500 that keeps the NCs and the determinations |
| UnitFinalize.QueryLimitsCut | functions/gerarNCsDaUnidade.ts:19-25 | answers after the 200th and findings after the 100th have no effect |
| UnitFinalize.TotalNcsCountsSources | functions/gerarNCsDaUnidade.ts:47-90 | `total_ncs` counts the qualifying answers and findings (also line 210) |
| Renumber.CleanupDeletesChecklistNcs | functions/renumerarConstatacoes.ts:23-38 | an NC is deleted exactly when it belongs to the unit and carries a truthy `resposta_checklist_id`; manual NCs survive |
| Renumber.DeterminationsDeletedBeforeTheirNc | functions/renumerarConstatacoes.ts:29-38 | each determination of a deleted NC is deleted before that NC |
| Renumber.CleanupDeletesChecklistRecs | functions/renumerarConstatacoes.ts:40-47 | exactly the recommendations with origin `checklist` are deleted |
| Renumber.PlanNumbering | functions/renumerarConstatacoes.ts:55-135 | answers get C1, C2, … in order; each NC and its determination share NC{k}/D{k}; recommendations get R1, R2, …; there are no more recommendations than NCs, NCs than numbered answers, numbered answers than answers |
| Renumber.AnswersNumberedInOrder | functions/renumerarConstatacoes.ts:67-86 | a qualifying answer among the first 200 gets C{1 + number of qualifying answers before it} |
| Renumber.UpdatedAnswersQualify | functions/renumerarConstatacoes.ts:67-155 | only qualifying answers among the first 200 are updated |
| Renumber.DeterminationsGetTheirNcId | functions/renumerarConstatacoes.ts:98-172 | each recreated determination references the id the store returned for its NC |
| Renumber.RunDeterminationsReferenceTheirNc | functions/renumerarConstatacoes.ts:157-172 | for either manual-NC lookup, a renumbered run creates every planned NC and its determination with that NC's id |
| Renumber.FindingGetsNextC | functions/renumerarConstatacoes.ts:137-148 | manual finding `j` of the phase gets the counter plus `j` |
| Renumber.FoundNcRenumbered | functions/renumerarConstatacoes.ts:180-216 | an NC found for a manual finding is renumbered with a fresh NC number of the manual phase |
| Renumber.ManualLookupAsWrittenMisfires | functions/renumerarConstatacoes.ts:190-194 | the substring lookup lets finding C1 claim the NC whose sentence names C12 |
| Renumber.ManualLookupByNumber | functions/renumerarConstatacoes.ts:190-194 | looked up by the number the sentence names, finding C{m} matches the NC naming C{n} exactly when m = n |
| Renumber.ByNumberRefinesAsWritten | functions/renumerarConstatacoes.ts:190-194 | every NC the corrected lookup finds is one the substring lookup also finds |
| Renumber.RenumerarConstatacoesAsWritten | functions/renumerarConstatacoes.ts:3-9 | without a user the handler answers 401 and writes nothing |
| Renumber.RenumberWith | functions/renumerarConstatacoes.ts:3-248 | the handler for a given manual-NC lookup: 401 without a user and no writes; the run renumbers exactly when there is a user, every NC and determination create returns an id, and no call throws within the run's writes |
| Renumber.RenumerarConstatacoesCorrected | functions/renumerarConstatacoes.ts:3-9 | the corrected handler (manual NCs found by the number their sentence names): 401 without a user and no writes; it renumbers exactly when there is a user, every create returns an id and no call throws (also lines 157-172, 242-248) |
| Renumber.RunCases | functions/renumerarConstatacoes.ts:157-248 | for either lookup, a renumbered run is the completed run of its plan; any other run with a user is a 500 whose writes begin the writes the run would have made, cut where a create returned no id or a call threw |
| Renumber.CountersAreNextFree | functions/renumerarConstatacoes.ts:232-240 | for either lookup, the returned C counter is 1 + numbered answers + findings, and every number written is below its returned counter |
| Renumber.CompletedFindingNumber | functions/renumerarConstatacoes.ts:137-148 | in a completed run finding `j` gets C{1 + numbered answers + j} |
| Renumber.CompletedManualRec | functions/renumerarConstatacoes.ts:219-230 | manual recommendations are renumbered after the checklist ones, R{1 + checklist recs + k} |
| Renumber.FailedRunKeepsEarlierWrites | functions/renumerarConstatacoes.ts:242-248 | an NC or determination create that throws, with nothing thrown before it, answers 500 but keeps the deletions and answer updates already made, and numbers no finding or recommendation |
| Renumber.ThrowKeepsEarlierWrites | functions/renumerarConstatacoes.ts:242-248 | a query, delete, update or recommendation create that throws after k writes answers 500 and keeps exactly those k writes; with no throw the completed run stands |
| Records.NameInjective | functions/dataService.ts:185 | among keys that do not spell a named field under `Other`, two keys print the same JSON field name exactly when they are the same key, so a payload never names a field twice |
| Records.Json | functions/dataService.ts:185 | the stringified payload keeps exactly the fields that do not hold `undefined`, with their values (also lines 231, 404) |
| Records.ApplyFilter | functions/dataService.ts:140-148 | no filter or an empty one returns the data unchanged; otherwise every kept item matches every filter entry |
| Records.ApplyFilterMembership | functions/dataService.ts:143-147 | an item is kept exactly when it is in the data and equals the filter on every filtered field |
| Records.ApplyFilterKeepsOrder | functions/dataService.ts:143-147 | filtering a concatenation is the concatenation of the filtered parts, so order is kept |
| Records.ApplyFilterIdempotent | functions/dataService.ts:140-148 | filtering twice with the same filter equals filtering once |
| Records.CountAfterPut | functions/dataService.ts:127-130 | a row added under a fresh key raises the unit's count by one exactly when it belongs to the unit (also lines 599-630) |
| LocalStore.Read | functions/dataService.ts:59-117 | an unmapped entity throws; a transactional entity, or any read offline or with no server data, is the filtered local table; a reference entity online with server rows is the filtered server rows |
| LocalStore.Enqueue | functions/dataService.ts:180-189 | the queue gains exactly the new pending operation with no attempts, and nothing else changes |
| LocalStore.CreatedRecord | functions/dataService.ts:166-173 | the caller's fields are kept except the bookkeeping ones; the id defaults to the local id; the record is marked pending |
| LocalStore.CreateIn | functions/dataService.ts:163-191 | the record is stored under its id, only its table changes, and one pending `create` with the record's payload is enqueued |
| LocalStore.Create | functions/dataService.ts:159-161 | an unmapped entity is an error and nothing is written; otherwise the create of the entity's table |
| LocalStore.UpdatedRecord | functions/dataService.ts:213-219 | the data's fields win over the current record's, the rest of the current record is kept, and the record is marked pending |
| LocalStore.QueuedIds | functions/dataService.ts:206-266 | the operation carries no remote id exactly when the id looks local (`temp_` prefix or 36 characters) |
| LocalStore.UpdateIn | functions/dataService.ts:205-237 | a missing record throws and writes nothing; otherwise the merged record is stored and one pending `update` is enqueued, naming the remote id exactly when the id is not local |
| LocalStore.Update | functions/dataService.ts:201-203 | an unmapped entity is an error; otherwise the update of the entity's table |
| LocalStore.DeleteIn | functions/dataService.ts:251-271 | the record is removed (a missing one is no error), only its table changes, and one pending `delete` carrying just the id is enqueued |
| LocalStore.Delete | functions/dataService.ts:247-249 | an unmapped entity is an error; otherwise the delete of the entity's table |
| LocalStore.Counted | functions/dataService.ts:602-630 | every next number is at least 1 |
| LocalStore.CalcularProximaNumeracao | functions/dataService.ts:599-634 | every next number is at least 1, and all are 1 when a SIM/NAO answer's non-string `pergunta` makes the count throw |
| LocalStore.CreatedOfUnit | functions/dataService.ts:166-173 | a created record belongs to the unit its data names |
| LocalStore.CountsKept | functions/dataService.ts:602-630 | a write to one series' table leaves the other series' counts as they were |
| LocalStore.CountedAfterAdd | functions/dataService.ts:602-630 | adding a unit record under a fresh key to one series' table moves exactly that series' next number up by one |
| LocalStore.NextAfterCreate | functions/dataService.ts:159-191 | creating a unit record moves that series' next number up by one and leaves the others, unless the count throws before and after (also lines 599-634) |
| AnswerCascade.CreateRespostaComNcEDeterminacao | functions/dataService.ts:537-594 | the answer is always created and returned; an NC linked to it and a determination linked to the NC are created exactly for a NAO answer to an NC-generating item; a recommendation exactly when the item also has a recommendation text; no other table changes and every created record is queued |
| AnswerCascade.AnswerAndFollowers | functions/dataService.ts:540-586 | the answer's table gains the answer; the follower tables change exactly as their conditions say; the queue gains exactly the used operation ids |
| AnswerCascade.Followers | functions/dataService.ts:551-586 | NC and determination are created together when the answer generates an NC, the recommendation only with them and a recommendation text |
| AnswerCascade.CreateIf | functions/dataService.ts:556-585 | a conditional create stores the record under its local id and queues one operation, or changes nothing |
| AnswerCascade.DataCarriesNoId | functions/dataService.ts:540-585 | none of the four payloads names an id, so each record is stored under its local id |
| AnswerCascade.CascadeRecordsOfUnit | functions/dataService.ts:541-581 | every record the cascade creates belongs to the unit given |
| AnswerCascade.CascadeCounts | functions/dataService.ts:551-630 | the unit's NC and determination counts grow by one exactly when an NC is generated, its recommendation count exactly when a recommendation is |
| AnswerCascade.NcLinksAnswer | functions/dataService.ts:558 | the NC's `resposta_checklist_id` is the created answer's id |
| AnswerCascade.DetLinksNc | functions/dataService.ts:571 | the determination's `nao_conformidade_id` is the created NC's id |
| AnswerCascade.DeterminationReadsBack | functions/dataService.ts:566-567 | the NC editor strips the composed determination back to the item's text or the default text |
| SyncUpload.Sendable | functions/dataService.ts:409-430 | the sent data is the payload without `_localId`, `_syncStatus`, `_syncError`, `created_at` and `updated_at`, every other field unchanged |
| SyncUpload.RequestOf | functions/dataService.ts:403-452 | an unknown operation makes no call; updates and deletes address `remoteId` when truthy and `localId` otherwise; no bookkeeping field is sent |
| SyncUpload.Synced | functions/dataService.ts:415-435 | the stored record is the server's result marked synced with no error |
| SyncUpload.ProcessSyncItem | functions/dataService.ts:402-457 | it fails exactly when the operation is unknown, the call fails or the entity is unmapped, writing nothing; on success the operation leaves the queue, other queued operations are untouched, a create swaps the local record for the server's and records the id mapping, an update overwrites, a delete removes |
| SyncUpload.MarkFailed | functions/dataService.ts:381-385 | marking a failure changes only that operation's queue entry |
| SyncUpload.Drain | functions/dataService.ts:368-387 | every processed operation is counted once as a success or a failure, and the errors are exactly the failures in order |
| SyncUpload.DrainKeepsOthers | functions/dataService.ts:368-387 | a queue entry the loop does not process is left as it was |
| SyncUpload.DrainKeyOutcome | functions/dataService.ts:368-456 | a processed operation that succeeds leaves the queue; one that fails stays, marked failed with one more attempt and its message |
| SyncUpload.Snapshot | functions/dataService.ts:363-366 | the loop works on the pending operations as stored when the query ran, one per key in query order |
| SyncUpload.Upload | functions/dataService.ts:350-392 | offline it returns zero counts and writes nothing; online successes plus failures equal the pending count and one error is reported per failure |
| SyncUpload.UploadKeyOutcome | functions/dataService.ts:363-387 | online, each pending operation is attempted: a success is dequeued, a failure is kept and marked failed with one more attempt |
| SyncUpload.UploadSkipsNonPending | functions/dataService.ts:363-366 | an operation that is not pending is not retried and stays as it was |
| SyncUpload.SentOfCreated | functions/dataService.ts:166-185 | a created record sends its local id and the caller's defined fields, and no bookkeeping field (also line 409) |
| SyncUpload.CreateSendsRecord | functions/dataService.ts:180-189 | the operation a create enqueues becomes a create call for its entity carrying the record's fields (also lines 409-410) |
| SyncUpload.CreateThenSync | functions/dataService.ts:159-191 | creating then syncing leaves the server's record marked synced in place of the local one, the queue as before, and the local id mapped to the server id (also lines 407-427) |
| OfflineStorage.AddPendingOperation | src/components/offline/offlineStorage.jsx:72-87 | the request fails with ConstraintError, changing nothing, exactly when the caller's `id` is a key already taken; otherwise the operation is stored under the caller's `id` or a fresh generated key, with status 'pending' and the current time whatever the caller passed, and other operations, the cache and the photos are untouched (also lines 36-39) |
| OfflineStorage.RemovePendingOperation | src/components/offline/offlineStorage.jsx:103-113 | exactly the given key goes and everything else stays |
| OfflineStorage.MarkOperationProcessing | src/components/offline/offlineStorage.jsx:191-211 | an existing operation's status becomes 'processing'; an unknown key changes nothing |
| OfflineStorage.UpdateOperationStatus | src/components/offline/offlineStorage.jsx:214-236 | an existing operation gets the status, the error and the attempt time, its other fields kept; an unknown key changes nothing |
| OfflineStorage.EntriesBelow | src/components/offline/offlineStorage.jsx:90-100 | the listing holds each stored operation with its key once, in ascending key order |
| OfflineStorage.GetPendingOperations | src/components/offline/offlineStorage.jsx:90-100 | every stored operation, whatever its status, in key order |
| OfflineStorage.CountPendingBelow | src/components/offline/offlineStorage.jsx:258-261 | counting the listed operations with status 'pending' is counting the pending keys |
| OfflineStorage.CountAfterAdd | src/components/offline/offlineStorage.jsx:72-87 | a successful add raises the pending count by one (also lines 258-261) |
| OfflineStorage.CountAfterRemove | src/components/offline/offlineStorage.jsx:103-113 | removing a pending operation lowers the count by one (also lines 258-261) |
| OfflineStorage.CountAfterMarkProcessing | src/components/offline/offlineStorage.jsx:191-261 | marking a pending operation as processing lowers the count by one |
| OfflineStorage.ClearOfflineData | src/components/offline/offlineStorage.jsx:239-255 | pending operations and photos are emptied and the cached data is kept |
| OfflineStorage.ClearLeavesNothingPending | src/components/offline/offlineStorage.jsx:239-261 | after clearing, the pending count is zero |
| OfflineStorage.CacheData | src/components/offline/offlineStorage.jsx:116-132 | only the entry under the key is replaced |
| OfflineStorage.GetCachedData | src/components/offline/offlineStorage.jsx:135-145 | the result is truthy data or `null` |
| OfflineStorage.CacheReadsBack | src/components/offline/offlineStorage.jsx:116-145 | the last data cached under a key reads back when truthy and as `null` otherwise; other keys read as before; clearing keeps the cache (also lines 239-255) |
| SyncManager.CallOf | src/components/offline/SyncManager.jsx:124-140 | create, update and delete dispatch to the matching call on the operation's entity, update and delete addressing the operation's id; any other type is an error naming it |
| SyncManager.PendingOnly | src/components/offline/SyncManager.jsx:69-70 | exactly the operations with status 'pending' are kept, in key order |
| SyncManager.Insert | src/components/offline/SyncManager.jsx:81 | inserting keeps every operation and adds the new one |
| SyncManager.SortByPriority | src/components/offline/SyncManager.jsx:81 | the sort is a permutation of its input |
| SyncManager.SortOrdered | src/components/offline/SyncManager.jsx:81 | sorting key-ordered operations puts higher priorities first and ties in key order, as a stable sort does |
| SyncManager.DrainOrderUnique | src/components/offline/SyncManager.jsx:81 | two orderings of the same operations that both respect priority then key are equal, so the drain order is determined |
| SyncManager.Step | src/components/offline/SyncManager.jsx:90-99 | one operation is removed on success, or kept and marked 'error' with its message and attempt time on failure; no other operation changes |
| SyncManager.Count | src/components/offline/SyncManager.jsx:83-100 | every operation is counted once; there are failures exactly when some operation fails and successes exactly when some succeeds |
| SyncManager.RunKeepsOthers | src/components/offline/SyncManager.jsx:86-100 | an operation the loop does not run is left as it was |
| SyncManager.RunKeyOutcome | src/components/offline/SyncManager.jsx:86-100 | an operation the loop runs is removed on success and marked 'error' on failure, whatever the earlier ones did |
| SyncManager.SyncPhotos | src/components/offline/SyncManager.jsx:142-158 | a photo is removed unless it needed an upload and the upload failed |
| SyncManager.SyncPendingOperations | src/components/offline/SyncManager.jsx:60-122 | a drain in progress or offline changes nothing; otherwise the in-progress flags are cleared at the end and the cache is kept |
| SyncManager.DrainErrorFlag | src/components/offline/SyncManager.jsx:67-112 | the error is set exactly when some pending operation fails, and it names the number of failures |
| SyncManager.DrainInvalidates | src/components/offline/SyncManager.jsx:106-108 | the caches are invalidated exactly when some pending operation succeeds |
| SyncManager.DrainOrderMembers | src/components/offline/SyncManager.jsx:69-70 | the drain takes exactly the pending operations, each under its key |
| SyncManager.DrainOrderOrdered | src/components/offline/SyncManager.jsx:81-86 | the drain runs higher priorities first, ties in key order, each key once |
| SyncManager.DrainKeyOutcome | src/components/offline/SyncManager.jsx:90-99 | each pending operation is attempted: removed on success, marked 'error' with its message on failure |
| SyncManager.DrainSkipsNonPending | src/components/offline/SyncManager.jsx:69-70 | an operation that is not pending is not run and stays as it was |
| SyncManager.FailedNotRetried | src/components/offline/SyncManager.jsx:70-99 | an operation that failed stays marked 'error' through the next drain, whatever the server answers then |
| EditNc.Strip | src/components/fiscalizacao/EditarNCModal.jsx:53-61 | stripping never lengthens the text, and a text with neither the prefix nor the suffix is kept as it is |
| EditNc.StripInvertsComposer | src/components/fiscalizacao/EditarNCModal.jsx:53-61 | stripping the determination "Para sanar a {NC} {t}. Prazo: 30 dias." that the local-first cascade composes gives back `t` for every `t` |
| EditNc.StripOfBatchSentence | src/components/fiscalizacao/EditarNCModal.jsx:53-61 | the batch phrasing without suffix loses only its prefix |
| EditNc.Init | src/components/fiscalizacao/EditarNCModal.jsx:33-77 | closed or without a constatação number the form is kept; otherwise an existing NC's article and text are loaded verbatim, a missing one gives the placeholder article and the default NC sentence, the determination is always selected with its stripped text or the default, and a recommendation is selected exactly when one exists |
| EditNc.IdOrNull | src/components/fiscalizacao/EditarNCModal.jsx:94-96 | an id is passed exactly when it is truthy |
| EditNc.Save | src/components/fiscalizacao/EditarNCModal.jsx:79-97 | the payload exists exactly when every check passes; it carries the form's own texts, trimmed (and non-blank where required), the D and R texts present exactly when selected and then equal to the trimmed form text, and each record's own id exactly when the record exists with a non-empty id |
| EditNc.NcSentenceTrimmed | src/components/fiscalizacao/EditarNCModal.jsx:44 | the default NC sentence is non-blank and already trimmed |
| EditNc.DefaultsAreSaveable | src/components/fiscalizacao/EditarNCModal.jsx:42-97 | for a constatação with text and no records yet, saving straight after opening passes the default sentence, the default determination, no recommendation and no ids |
| EditNc.ReopenedDeterminationSavesItsTemplate | src/components/fiscalizacao/EditarNCModal.jsx:50-92 | reopening a determination the local-first cascade composed from a trimmed text and saving it hands back that text |
| ImportChecklist.Columns | functions/importarChecklist.ts:36 | one column per ';'-separated piece, each trimmed |
| ImportChecklist.ParseRow | functions/importarChecklist.ts:36-61 | a line with fewer than 11 pieces is rejected with its column count; a missing question or type name is rejected; otherwise the row is read by position |
| ImportChecklist.ColumnsClean | functions/importarChecklist.ts:36 | every column is trimmed and holds no ';' |
| ImportChecklist.ParsedWellFormed | functions/importarChecklist.ts:36-61 | an accepted row is trimmed, free of ';', and has a question and a type name |
| ImportChecklist.ParseRowOfLine | functions/importarChecklist.ts:36-61 | parsing the line a well-formed row is written as gives that row back |
| ImportChecklist.FindTipo | functions/importarChecklist.ts:71-76 | a found type carries the row's name; nothing is found exactly when no existing or created type has that name |
| ImportChecklist.ItemDefaults | functions/importarChecklist.ts:92-104 | `gera_nc` and `ativo` are always true; `ordem` is the number written or 0 when unparsable; `prazo_dias` is the number written, or 30 when unparsable or zero |
| ImportChecklist.ImportLines | functions/importarChecklist.ts:33-111 | a bad row never stops the loop: each data line yields exactly one item or one error |
| ImportChecklist.Import | functions/importarChecklist.ts:8-118 | 403 exactly for a non-admin; 400 exactly for an admin with no file or fewer than two non-blank lines, writing nothing; otherwise the items counted and the errors, null when none, add up to the data lines |
| ImportChecklist.NonBlank | functions/importarChecklist.ts:20 | the lines kept are exactly the non-blank ones |
| ImportChecklist.ImportLinesKeeps | functions/importarChecklist.ts:63-116 | each cached key was resolved through the server once, so `tipos_criados` counts distinct keys, and no created type duplicates a name that already had a type |
| ImportChecklist.ImportRowNamesType | functions/importarChecklist.ts:63-106 | with the cache keyed by the (code, name) pair, a row's item is filed under a type bearing the row's type name |
| ImportChecklist.ImportLinesNames | functions/importarChecklist.ts:63-89 | with the pair key, every cached type bears the name in its key throughout the run |
| ImportChecklist.JoinedKeyMisfiles | functions/importarChecklist.ts:65-68 | with the joined text key, two rows whose code and name join to the same text but whose names differ share one type |
| ImportChecklist.JoinedKeyCollides | functions/importarChecklist.ts:65-68 | the rows (code "A_B", name "C") and (code "A", name "B_C") collide, and the second item is filed under the type named "C" |
| DeleteInspection.Matching | functions/deletarFiscalizacao.ts:21-64 | a query returns exactly the records of its entity whose filtered field holds the id |
| DeleteInspection.Found | functions/deletarFiscalizacao.ts:35-64 | a limited query returns at most 500 records, all matching |
| DeleteInspection.PerUnit | functions/deletarFiscalizacao.ts:49-64 | the per-unit queries, flattened, hold every record each unit's query found and nothing from other units |
| DeleteInspection.Batches | functions/deletarFiscalizacao.ts:91-98 | the deletes run kind by kind in the order given |
| DeleteInspection.DeletionOrderRanked | functions/deletarFiscalizacao.ts:92-98 | the order is answers, determinations, recommendations, NCs, manual findings, photos, units, without the inspection |
| DeleteInspection.Deletions | functions/deletarFiscalizacao.ts:44-99 | the deletes before the inspection's own follow the fixed order of kinds |
| DeleteInspection.Without | functions/deletarFiscalizacao.ts:77-89 | a record is gone exactly when its delete was issued and succeeded |
| DeleteInspection.Succeeded | functions/deletarFiscalizacao.ts:79-86 | the deletes carried out are exactly those the server did not refuse |
| DeleteInspection.DeletarFiscalizacao | functions/deletarFiscalizacao.ts:3-117 | 401 without a user, 400 without an id, 404 for an unknown inspection, 403 for anyone but an admin or the creator, each before any delete; otherwise every delete is attempted in order, a record is gone exactly when its delete succeeded, and the response is 500 exactly when the inspection's own delete fails |
| DeleteInspection.AttemptsOrdered | functions/deletarFiscalizacao.ts:91-103 | the inspection is deleted last, after every related record, kind by kind |
| DeleteInspection.NoUnitsOnlyInspection | functions/deletarFiscalizacao.ts:44-103 | with no units the only delete is the inspection's own |
| DeleteInspection.FoundRecordsAttempted | functions/deletarFiscalizacao.ts:48-98 | every record the queries find is deleted or at least attempted |
| DeleteInspection.BatchesCover | functions/deletarFiscalizacao.ts:91-98 | a record in one kind's batch is among the deletes of the kinds that include it |
| InspectionPage.SaveAnswer | src/pages/VistoriarUnidade.jsx:266-301 | a locked page refuses with the lock message; otherwise the answer joins the end of the queue and the queue is otherwise unchanged |
| InspectionPage.ConstatacaoTextShape | src/pages/VistoriarUnidade.jsx:215-226 | the text is kept exactly when it is non-blank; it is then the trimmed template, with ';' appended when it did not end with one; applying the rule twice changes nothing more |
| InspectionPage.ExistingAnswer | src/pages/VistoriarUnidade.jsx:213 | the answer found is one of the fetched answers for the item; none is found only when no fetched answer is for the item |
| InspectionPage.WriteFor | src/pages/VistoriarUnidade.jsx:210-248 | the stored text follows the template rule for SIM, NAO and NA; a number, equal to the counter, is written exactly when there is text; `gera_nc` is NAO and the item's flag; an existing answer with an id is updated, otherwise one is created for the item and unit |
| InspectionPage.Batch | src/pages/VistoriarUnidade.jsx:209-251 | unknown items are skipped, so there is one write per queued answer whose item is known; a write carries a number exactly when it carries text |
| InspectionPage.NumberedFromCons | src/pages/VistoriarUnidade.jsx:228-250 | a numbered write at the counter followed by writes numbered from the next value is numbered from the counter |
| InspectionPage.BatchNumbered | src/pages/VistoriarUnidade.jsx:228-250 | the numbers a batch writes are consecutive from its start: each numbered write gets the start plus the numbered writes before it |
| InspectionPage.RunBatch | src/pages/VistoriarUnidade.jsx:190-258 | the batch alerts exactly when a query or write throws within its writes, then keeping as many writes as were made, a prefix of the batch's writes |
| InspectionPage.FailedBatchDropsRest | src/pages/VistoriarUnidade.jsx:192-258 | the queue is emptied first, so a throw keeps exactly the writes before it and loses the rest of the batch; with no throw every write is made and nothing is alerted |
| InspectionPage.ProcessBatchNumbers | src/pages/VistoriarUnidade.jsx:196-250 | the first number is the numbered SIM/NAO answers of the first page plus the manual findings of the first page plus one, and the batch numbers consecutively from there |
| InspectionPage.FilterAgrees | src/pages/VistoriarUnidade.jsx:204-207 | two counting rules that agree on every answer count the same (also lines 384-386) |
| InspectionPage.ManualAndBatchAgree | src/pages/VistoriarUnidade.jsx:204-207 | the manual-finding number, which counts every answer with text, equals the batch's first number as long as no NA answer carries text (also lines 384-388) |
| InspectionPage.FilterMonotone | src/pages/VistoriarUnidade.jsx:559-561 | a weaker counting rule never counts fewer |
| InspectionPage.SaveEditTotals | src/pages/VistoriarUnidade.jsx:552-575 | `total_ncs` is the number of the unit's NCs and `total_constatacoes` is at most the number of answers |
| InspectionPage.TotalsCountAnswered | src/pages/VistoriarUnidade.jsx:559-561 | the saved total plus the NA answers is the number of answers, so it counts exactly the SIM and NAO answers |
| InspectionPage.TotalsCoverNumbered | src/pages/VistoriarUnidade.jsx:559-561 | the saved total counts at least every numbered answer |
| InspectionPage.AddRecommendation | src/pages/VistoriarUnidade.jsx:326-346 | a locked page refuses with the lock message; counters not yet loaded (`contadores` null, line 38) refuse with the TypeError of `contadores.R`; otherwise a manual recommendation for the unit with the given text |
| InspectionPage.RecommendationContinues | src/pages/VistoriarUnidade.jsx:332-338 | when the unit's recommendations run R(offset+1)…R(offset+n), the new one is R(offset+n+1), a label none of them has |
| InspectionPage.SaveManualFinding | src/pages/VistoriarUnidade.jsx:354-403 | a locked page refuses; editing updates the finding being edited with the new `gera_nc`; a new finding gets C(answers with text + manual findings + 1), the unit and the creation time |
| InspectionPage.ManualDescriptionEndsWithSemicolon | src/pages/VistoriarUnidade.jsx:362-393 | a saved description is missing, empty, or ends with ';' once trimmed |
| InspectionPage.DeleteManualFinding | src/pages/VistoriarUnidade.jsx:443-455 | a locked page refuses; otherwise the server's cascade delete is asked for that finding and unit |
| InspectionPage.LockCoversMutations | src/pages/VistoriarUnidade.jsx:267-269 | on a finalised inspection outside edit mode all four mutations are refused; in edit mode or otherwise three go ahead and the recommendation goes ahead exactly when the counters are loaded (also lines 328-330, 337, 356-358, 445-447) |

## Left out

- Network, IndexedDB and the remote entity SDK: each query is a parameter holding its result, and each write is an element of a returned list or an update of a map.
- A remote call that throws is modelled only where a member takes an outcome for it: the `fault` count of the renumbering, the live cascade and the page's answer batch; the ids the creates of the batch endpoint and of the finalize handler return, and the finalize handler's follow-up outcomes; the `server` answers of the inspection delete; the per-row faults of the checklist import; the counters call of `calcularProximaNumeracao`; and the per-operation outcomes of the sync drain. Elsewhere every remote call succeeds: the page's manual-finding and recommendation mutations and the edit-mode totals save.
- Authentication: the user and the role are inputs.
- Ids from `crypto.randomUUID()`, `Date.now()` and the remote store are inputs.
- Wall-clock dates: "today" is an integer day, and ISO date strings are not printed. `data_limite` is that day plus `prazo_dias`.
- JavaScript strings are sequences of characters: there is no UTF-16 surrogate handling. `toLowerCase` covers ASCII and Latin-1 letters only.
- `parseInt` results are unbounded integers. The loss of precision of JavaScript numbers above 2^53 is not modelled.
- `undefined` and `null` fields are both `None`. Two places tell them apart: `prazo_dias` in the batch endpoint (`BatchCascade.Prazo`: absent, `null` or a number) and the live cascade's `numeroConstatacao`, which starts as `null` and is printed "null". Everywhere else a template literal or `includes` that reads `None` gets "undefined" (`Text.Show`). That is right for a missing field, but JavaScript prints a stored or sent `null` as "null". The lines below name the members whose texts then differ from the code's.
- UnitFinalize.NcTextNamesConstatacao: a NAO answer whose `numero_constatacao` is stored as `null` gets the NC text "A Constatação null …" from gerarNCsDaUnidade.ts:53, and the model's text reads "A Constatação undefined …". VistoriarUnidade.jsx:228 and 245 store that `null` when the NAO template is blank. A `null` `artigo_portaria` differs the same way.
- BatchCascade.NcIffGeraNc: a request that sends `numero_constatacao` or `artigo_portaria` as `null` gets "null" in the NC sentence; the model prints "undefined", as for an absent field.
- BatchCascade.DeterminationDeadline: a `numero_nc` sent as `null` gives "Para sanar a null …"; the model prints "undefined".
- AnswerCascade.CreateRespostaComNcEDeterminacao: a `numero_constatacao` or `numero_nc` passed as `null` prints "null" in the NC and determination texts; the model prints "undefined".
- Records.NameInjective: a record whose data carries `Other(n)` with `n` the name of a named field (say `Other("id")`) is outside the model. In JavaScript such a field and the named one are the same property; the model's map would hold both. `WellFormedKey` excludes these keys.
- Renumber.RenumberWith: the checklist-recommendation query (renumerarConstatacoes.ts:41-44) is unsorted and unlimited, while the manual one (renumerarConstatacoes.ts:220-223) is sorted by `created_date` and limited to 100. The model reads one `recs` in `created_date` order for both. The cleanup deletes the same recommendations, but possibly in another order than the store's.
- Concurrency is not modelled: `Promise.all` fan-out is taken in order, and numbering collisions across devices are left out.
- Timers are not modelled: the 300 ms debounce of the answer queue, the 200/300 ms delays between calls and the 30 s sync interval.
- Logging (`console`), `alert` and toasts are not modelled.
- React Query cache invalidation is not modelled. For the sync drain only the fact that it happens is kept, as a flag.
- The `sync-complete` window event and the progress UI of the sync drain are not modelled.
- The offline photo store (`savePhotoOffline`, `getOfflinePhotos`, `removeOfflinePhoto`) is left out: it is image plumbing. Only its emptying by `clearOfflineData` is modelled.
- IndexedDB request errors are not modelled, and neither is the outer `catch` that turns them into rejected promises.
- One drain of `SyncManager` reads the clock once: every `lastAttempt` it writes carries the same time.
- The order in which Dexie returns the pending operations is a parameter, a listing of exactly the pending keys.
- `read` in the data service does not write server results back into the reference cache, and the `server` argument is the server's answer.
- The outer `catch` of the checklist import, which answers 500 on an unexpected exception, is left out. Exceptions raised while a row is processed are modelled through a per-row parameter.
- The JSX of the inspection page and of the NC editor is not modelled: their query hooks, dialogs, photo handling and the `onSuccess` callbacks that open the NC modal with the numbers just created.
- The photos saved by the edit-mode save of the inspection page are not modelled. Only the totals it writes are.
- Page sizes the code does not pass are not modelled. The edit-mode totals query uses the store's default page size, modelled as the whole result.
- The inspection page's lock message differs from the one in fiscalizacaoLock.jsx; both are kept as written.
- Behaviour the code does not have is not stated. Finalize is not idempotent, because gerarNCsDaUnidade deletes nothing first. Sync does not rewrite temp ids held by other queued operations: only the id mapping is written. Finalize numbering has no cross-unit offset.
- Renumber.RenumberWith: a `fault` equal to the number of writes is a call that throws after the last write. The code makes one only when a query follows that write. The model allows it in every run.
- LiveCascade.Executar: the same holds; a throw after all writes happens only when no NC is created or deleted, so that the NC and determination queries are the last calls.
- InspectionPage.RunBatch: the same holds; a throw after all writes is the cache invalidation that follows them.
- UnitFinalize.GerarNcsDaUnidade: a query that throws before the NC bulk create is modelled only through too few `ncIds`, which needs at least one NC to create. A unit with nothing to create always answers 200 in the model.
- OfflineStorage.AddPendingOperation: keys are natural numbers. A caller `id` that is a string or a fractional number, which IndexedDB also accepts as a key, is not modelled.
- InspectionPage.SaveEditTotals: its own contract bounds the total by the number of answers; the exact count is stated by InspectionPage.TotalsCountAnswered.
- UI components outside the core are not modelled: reports, image compression, the service worker, the Dexie schema and the React hooks.

## Findings

| source | as written | input that shows it | evidently intended | confidence | as-written member | corrected member |
|---|---|---|---|---|---|---|
| functions/renumerarConstatacoes.ts:190-194 | the manual NC of a finding is found by `descricao.includes(oldNumero)` | finding C1 and a manual NC whose description names C12: "C1" occurs in "C12", so C12's NC is renumbered as C1's | find the NC whose sentence names exactly the finding's old number | high (by reading; not executed) | Renumber.ManualLookupAsWrittenMisfires | Renumber.ManualLookupByNumber |
| functions/importarChecklist.ts:64-88 | the unit-type cache key is `${tipo_unidade_codigo}_${tipo_unidade_nome}` | rows with (code "A_B", name "C") and (code "A", name "B_C") build the same key "A_B_C", so the second row's item is filed under type "C" | one cache entry per (code, name) pair | high (by reading; not executed) | ImportChecklist.JoinedKeyCollides | ImportChecklist.ImportRowNamesType |
