# CalyxAI nutrition assistant — a verified model of its decision logic

CalyxAI is a nutrition assistant: a chat front end (React) over a Python
backend. This project models the parts of it that decide, rather than the
parts that talk to the network, a database or a language model.

- **The formula slot-filling engine of the `/chat` endpoint**
  (`calyx-ai/backend/main.py`). On every turn it receives the whole
  dialogue as one string of `user:` / `ai:` lines. It:
  - finds the last user line;
  - detects whether the user wants the IMC (body-mass index) or the body
    composition formula;
  - decides whether the turn is a new request or the answer to a question;
  - extracts typed, range-checked parameters with regular expressions and
    a next-line fallback;
  - then either asks one question for the first missing parameter, or
    evaluates the formula and its threshold classifiers;
  - when a calculation was named but no formula was detected, apologises.

  Modules: `ChatDetector`, `Scan`, `Extraction`, `Numeric`, `Formulas`,
  `Classify`, `Evaluation`, `ChatFlow`.
- **Three drifted copies of that engine in the backend's test scripts.**
  They are modelled as written, each with its own detector and extractor.
  The situations the scripts set up are stated as lemmas, mostly over the
  last lines of their dialogues; the literal outcomes not derived are
  listed under "Left out". Modules: `TestCompleto`, `TestSeparacion`,
  `TestSexo`.
- **The front end's recursive formula-dependency resolver**
  (`useFormulaResolver.ts`). It is a class `FormulaResolver` whose
  `resultados` map is a field. The resolution is a ghost function,
  terminating on an acyclic registry. Module: `Resolver`.
- **The other backend's pure pieces.** Each has its own module:
  - the `<think>` splitter (`ThinkBlocks`);
  - the food-search row processing (`FoodRow`, `Alimento`);
  - the keyword router of the fallback server (`Fallback`);
  - input validation (`Validators`);
  - the nutrition row formatters (`Nutricion`).
- **The two `formatConsole.ts` variants and the YAML block parser.**
  Modules: `ConsoleText`, `FormatConsole`, `CalyxFormatConsole`,
  `ConsoleYaml`.

Shared vocabulary lives in `Options` (Option and Result) and `Text`. `Text`
models Python and JavaScript `lower`, `strip`/`trim`, `split`, `join` and
`in` on strings, with the algebra the other proofs need.

Modelling choices:

- A Python `float` is an exact real.
- `round(x, n)` is a real rounded half to even to `n` decimals.
- `math.pi` and `math.log10` are parameters of the composition calculation.
- A dictionary the source iterates is a sequence of key/value pairs in
  insertion order.
- The formula registry `data_formulas.json` is an input: a sequence of
  `(key, Formula)` entries.
- Each regular expression family is an explicit scanner. The scanner keeps
  the order in which matches are found, and the "first pattern wins" and
  "first in-range match wins" rules.

## Model

| member | source | states |
|---|---|---|
| `ChatDetector.FindLastUserMessage` | calyx-ai/backend/main.py:236-245 | the reverse scan returns the text of the last non-blank line not starting with `ai:`, lower-cased, `user:` stripped |
| `ChatDetector.LastUserInIsLast` | calyx-ai/backend/main.py:240-245 | no user line gives ""; otherwise the result is the text of the user line after which every line is blank or `ai:` |
| `ChatDetector.LastUserInChoice` | calyx-ai/backend/main.py:240-245 | the last user text is "" or the text of one of the lines |
| `ChatDetector.LastUserLineInPrompt` | calyx-ai/backend/main.py:232-245 | the last user text is a substring of the lower-cased dialogue |
| `ChatDetector.MappedTerm` | calyx-ai/backend/main.py:295-311 | a term-map hit is a registered key whose term occurs in the dialogue, and no earlier term of the map occurs with a registered key (the first hit in map order); no hit means no such term |
| `ChatDetector.MappedTermNone` | calyx-ai/backend/main.py:309-311 | the term map gives nothing exactly when no term of a registered key occurs |
| `ChatDetector.ByName` | calyx-ai/backend/main.py:313-321 | the name/key step returns a registry entry whose lower-cased name or key occurs, and no earlier entry is named (the first in registry order); nothing means no entry is named |
| `ChatDetector.ByNameNone` | calyx-ai/backend/main.py:313-322 | the name/key step fails exactly when no entry is named |
| `ChatDetector.DetectByPhrases` | calyx-ai/backend/main.py:250-293 | the fixed-phrase steps only ever return the `imc` or `composicion_corporal` key, with the registry's formula under that key |
| `ChatDetector.Detect` | calyx-ai/backend/main.py:231-322 | no key means no formula; a key is a fixed one or a registered one; a formula comes with a registered key |
| `ChatDetector.DetectConsistent` | calyx-ai/backend/main.py:231-322 | with distinct registry keys, the formula returned is the one registered under the detected key |
| `ChatDetector.PhrasesNothing` | calyx-ai/backend/main.py:250-293 | the fixed-phrase steps give nothing exactly when the last user line has no composition alias, and the whole prompt has no composition term and no IMC alias |
| `ChatDetector.DetectNothing` | calyx-ai/backend/main.py:231-322 | `(None, None)` exactly when no step applies: no phrase, no registered mapped term, no registered name or key |
| `ChatDetector.DetectLastLineComposition` | calyx-ai/backend/main.py:250-257 | a composition alias in the last user line selects `composicion_corporal` whatever else the dialogue holds |
| `Scan.NumberAt` | calyx-ai/backend/main.py:349 | the number pattern `\d{1,3}(?:[\.,]\d+)?` at a position: a non-negative value read from digits starting there |
| `Scan.FracValue` | calyx-ai/backend/main.py:357 | the digits after `.` or `,` add a fraction in `[0, 1)` |
| `Scan.UnitAfter` | calyx-ai/backend/main.py:349 | optional spaces then kg, kilogramo(s) or kilo(s): a match found ends inside the text, after the spaces |
| `Scan.FindFrom` | calyx-ai/backend/main.py:350 | the lazy `.*?kw` step finds the first occurrence of the keyword at or after a position, or proves there is none |
| `Scan.NumUnitAt` | calyx-ai/backend/main.py:349 | a number followed by a unit ends after it, inside the text |
| `Scan.NextNumber` | calyx-ai/backend/main.py:350 | the number after a keyword lies after the keyword, inside the text |
| `Scan.NextNumUnit` | calyx-ai/backend/main.py:436 | the number-then-unit after a keyword lies after the keyword |
| `Scan.MatchAt` | calyx-ai/backend/main.py:348-470 | a pattern matched at a position consumes at least one character and ends inside the text |
| `Scan.FindAllNoKeyword` | calyx-ai/backend/main.py:350-351 | a keyword pattern finds nothing where its keyword does not occur |
| `Scan.FindAllNoDigits` | calyx-ai/backend/main.py:349 | a number pattern finds nothing in a text without digits |
| `Scan.LoneMF` | calyx-ai/backend/main.py:410 | `\b([MFmf])\b` yields only one-letter m/f matches |
| `Scan.NextMF` | calyx-ai/backend/main.py:411 | the lazy `.*?([MFmf])` step finds the first m/f letter at or after a position, or proves there is none |
| `Scan.SexoMF` | calyx-ai/backend/main.py:411 | `sexo.*?([MFmf])` yields only one-letter m/f matches |
| `Scan.SexWordAt` | calyx-ai/backend/main.py:412 | the word alternation matches one of the four sex words at a position |
| `Scan.SexWordMatches` | calyx-ai/backend/main.py:412 | the sex pattern (masculino, femenino, hombre, mujer) yields only those words |
| `Extraction.Accept` | calyx-ai/backend/main.py:357-385 | a value is stored iff it is in the parameter's range and is stored unchanged; a height is accepted iff in 1.0–2.5 (kept) or 140–220 (divided by 100) |
| `Extraction.FirstAccepted` | calyx-ai/backend/main.py:356-361 | the stored value is the accepted reading of some match, nothing is stored iff no match is accepted, and the value is in bounds |
| `Extraction.FirstMatch` | calyx-ai/backend/main.py:354-363 | a parameter is found iff some pattern has an accepted match, and the value is in bounds |
| `Extraction.FirstMatchIsFirst` | calyx-ai/backend/main.py:354-363 | the value found comes from the first pattern, in list order, that has an accepted match |
| `Extraction.SexOf` | calyx-ai/backend/main.py:418-429 | a one-letter m/f match or a sex word stores `M` or `F` |
| `Extraction.SexoFound` | calyx-ai/backend/main.py:415-431 | sexo found by the patterns is always `M` or `F` |
| `Extraction.With` | calyx-ai/backend/main.py:359 | `params[k] = v` only when a value was found; otherwise the map is unchanged |
| `Extraction.LastN` | calyx-ai/backend/main.py:334 | `lineas[-3:] if len(lineas) > 3 else lineas` is the last `n` lines, or all of them |
| `Extraction.IntsAreWhole` | calyx-ai/backend/main.py:391-400 | the age patterns, which have no fraction, capture whole numbers only |
| `Extraction.WholeFirstMatch` | calyx-ai/backend/main.py:397-406 | the stored age is a whole number |
| `Extraction.PatternParamsOk` | calyx-ai/backend/main.py:347-470 | every parameter the patterns store is one of the nine names and in its range; edad is whole, sexo is `M` or `F` |
| `Extraction.FallbackOk` | calyx-ai/backend/main.py:473-514 | the next-line fallback keeps every stored value in its range |
| `Extraction.FallbackKeys` | calyx-ai/backend/main.py:473-514 | the fallback stores only peso, altura, edad and sexo |
| `Extraction.ExtractOk` | calyx-ai/backend/main.py:324-517 | for any dialogue every extracted parameter is one of the nine names and in its range |
| `Extraction.FallbackOnlyWhenEmpty` | calyx-ai/backend/main.py:472-474 | with any pattern hit the result is exactly the pattern parameters; otherwise only the four fallback keys can appear |
| `Extraction.FirstInRange` | calyx-ai/backend/main.py:356-361 | the match loop with `break` returns the first accepted match |
| `Extraction.FirstPatternInRange` | calyx-ai/backend/main.py:354-363 | the pattern loop stops at the first pattern with an accepted match |
| `Extraction.FirstSexLoop` | calyx-ai/backend/main.py:415-431 | the sexo loop returns the first match, over the three pattern lists in order, that stores a letter |
| `Extraction.Fallback` | calyx-ai/backend/main.py:476-514 | the fallback loop over the lines equals the line-by-line fallback function |
| `Extraction.AddPliegues` | calyx-ai/backend/main.py:453-470 | the skinfold loop equals the fold-by-fold function |
| `Extraction.PatternSearch` | calyx-ai/backend/main.py:347-470 | the nine pattern searches, in order, equal the pattern-parameter function |
| `Extraction.ExtraerParametrosUsuario` | calyx-ai/backend/main.py:324-517 | the extractor method equals the extraction function, and its result is well formed |
| `Extraction.NewRequestWindow` | calyx-ai/backend/main.py:330-336 | on a new request the scanned text is the lower-cased tail of the stripped dialogue starting after a newline; its lines are the last three lines |
| `Numeric.RoundHalfEven` | calyx-ai/backend/main.py:615 | `round(x)` is within one half of `x`, and a tie goes to the even integer |
| `Numeric.Round` | calyx-ai/backend/main.py:615 | `round(x, n)` has at most `n` decimals and is within half a unit of the `n`-th decimal of `x` |
| `Numeric.RoundBy` | calyx-ai/backend/main.py:615 | rounding by `p` gives `round(x·p)/p` |
| `Numeric.RoundMonotone` | calyx-ai/backend/main.py:615 | rounding never reverses the order of two values |
| `Numeric.OneDecimalGap` | calyx-ai/backend/main.py:764 | a value rounded to one decimal never lies strictly between two consecutive tenths |
| `Formulas.Get` | calyx-ai/backend/main.py:257 | `formulas.get(k)` finds a formula iff the key is registered, and it is the one stored with the key |
| `Formulas.GetEntry` | calyx-ai/backend/main.py:257 | with distinct keys, looking up an entry's key returns that entry's formula |
| `Formulas.FirstBandText` | calyx-ai/backend/main.py:617-621 | "" when no band selects the value; otherwise the text of the first band with `min <= x <= max` (and the right `parametro`) |
| `Formulas.Interpretar` | calyx-ai/backend/main.py:617-621 | the band loop with `break` equals the first-band function |
| `Classify.Level` | calyx-ai/backend/main.py:934-941 | an `if x >= c1 … elif x >= c2 …` chain picks the first cut point the value reaches, or the last label |
| `Classify.LevelAntitone` | calyx-ai/backend/main.py:934-961 | with falling cut points a larger value never gets a worse label |
| `Classify.LevelInterval` | calyx-ai/backend/main.py:934-961 | with falling cut points the label is exactly the interval the value lies in |
| `Classify.TablesFall` | calyx-ai/backend/main.py:696-961 | the AMBd, MMT, density, %PCT and %CMB cut points fall |
| `Classify.PctBands` | calyx-ai/backend/main.py:934-941 | %PCT: ≥100 normal, 65–100 mild, 40–65 moderate, <40 severe |
| `Classify.CmbBands` | calyx-ai/backend/main.py:954-961 | %CMB: ≥90 normal, 85–90 mild, 75–85 moderate, <75 severe |
| `Classify.IagLevel` | calyx-ai/backend/main.py:912-921 | the IAG chain picks one of its five labels |
| `Classify.IagBands` | calyx-ai/backend/main.py:912-921 | IAG "Desgastado" iff <5, "Promedio" iff 15–85, "Exceso de grasa" iff >95 |
| `Classify.IagMonotone` | calyx-ai/backend/main.py:912-921 | a larger IAG never gets a lower label |
| `Classify.AgeBand` | calyx-ai/backend/main.py:770-824 | ages 20–39, 40–59, 60–79 have a band; an age has none iff below 20 or above 79 |
| `Classify.NihLevel` | calyx-ai/backend/main.py:771-778 | the fat-percentage chain of an age band picks one of its four labels |
| `Classify.GeneralLevel` | calyx-ai/backend/main.py:827-841 | the rule for ages outside the bands picks one of its three labels |
| `Classify.NihMonotoneOnGrid` | calyx-ai/backend/main.py:771-778 | on one-decimal values with the normal range ending a tenth below the high range, a larger value never gets a lower label |
| `Classify.NihCutsTenthApart` | calyx-ai/backend/main.py:769-824 | each of the six age and sex bands ends its normal range one tenth below its high range |
| `Classify.GrasaMonotoneOnGrid` | calyx-ai/backend/main.py:764-824 | within an age band a larger fat percentage (rounded to one decimal) never gets a lower label |
| `Classify.NihGapOffGrid` | calyx-ai/backend/main.py:773-778 | off the one-decimal grid the chain is not monotone: 19.95 falls through to "Muy Alto/Obesidad" while 24.0 is "Alto/Sobrepeso" |
| `Classify.GeneralMonotone` | calyx-ai/backend/main.py:827-841 | the general rule never labels a larger value lower |
| `Classify.ImlgText` | calyx-ai/backend/main.py:854-864 | IMLG "Desgastado/Bajo" iff below 17 (men) or 15 (women), "Normal" otherwise |
| `Evaluation.EvalImc` | calyx-ai/backend/main.py:602-645 | fails iff peso or altura cannot be read; height error iff altura ≤ 0; otherwise the IMC rounded to two decimals, near peso/altura², labelled by the first inclusive band |
| `Evaluation.ImcHeightErrorUnreachable` | calyx-ai/backend/main.py:606-614 | parameters from the extractor always hold a positive height, so the height error cannot be reached from the chat |
| `Evaluation.ReadInputs` | calyx-ai/backend/main.py:648-656 | the nine readings succeed iff peso, altura, edad and the five measurements can be read back |
| `Evaluation.BandOr` | calyx-ai/backend/main.py:689-703 | a registry band for the measurement wins; with none (or an empty text) the fixed chain is used |
| `Evaluation.FatOf` | calyx-ai/backend/main.py:762-841 | the fat percentage has one decimal and is labelled by the sex/age chain |
| `Evaluation.ReportOf` | calyx-ai/backend/main.py:668-969 | each reported value is its rounded formula and each label its classifier, down to the IMC and its registry band |
| `Evaluation.EvalComposition` | calyx-ai/backend/main.py:646-1114 | guard error iff altura, cmb or a skinfold is ≤ 0; failure iff the inputs cannot be read or a division raises; otherwise the report |
| `Evaluation.RoundedAbove` | calyx-ai/backend/main.py:896 | a value above 0.01 stays positive once rounded to two decimals |
| `Evaluation.ArmWaterPositive` | calyx-ai/backend/main.py:877-896 | with in-range inputs the arm area and the total body water are positive |
| `Evaluation.ReadInRange` | calyx-ai/backend/main.py:648-656 | a well-formed map holding every measurement reads back every input, in range |
| `Evaluation.CompositionOnExtracted` | calyx-ai/backend/main.py:658-666 | on extracted parameters all nine inputs read back and the guard never fires; the calculation fails iff the body density is zero or the registry has no `imc` formula |
| `ChatFlow.NuevaSolicitud` | calyx-ai/backend/main.py:535-555 | the flag loop sets the flag iff the last user text is not a bare number or lone m/f and contains one of the seven phrases |
| `ChatFlow.NuevaSolicitudIsPhrase` | calyx-ai/backend/main.py:540-555 | the plain-answer exemption never changes the flag: it is exactly "the last user text contains a phrase" |
| `ChatFlow.BareNumberChars` | calyx-ai/backend/main.py:541 | a bare number holds only digits and '.' |
| `ChatFlow.BareNumberNoChar` | calyx-ai/backend/main.py:541 | a text holding any other character is not a bare number |
| `ChatFlow.Missing` | calyx-ai/backend/main.py:568-571 | the missing list is no longer than the registry list |
| `ChatFlow.MissingMembers` | calyx-ai/backend/main.py:568-571 | a parameter is missing iff it is a registry parameter whose name was not extracted |
| `ChatFlow.MissingSome` | calyx-ai/backend/main.py:568-575 | something is missing iff some registry parameter was not extracted |
| `ChatFlow.MissingFirst` | calyx-ai/backend/main.py:575-577 | the first missing parameter is a registry parameter that was not extracted |
| `ChatFlow.NoneMissing` | calyx-ai/backend/main.py:568-575 | nothing missing means every registry parameter was extracted |
| `ChatFlow.Faltantes` | calyx-ai/backend/main.py:568-571 | the append loop builds exactly the missing list |
| `ChatFlow.Question` | calyx-ai/backend/main.py:577-598 | one of the nine known names gets the backend's fixed question; any other name the registry's `pregunta` |
| `ChatFlow.FixedQuestionsCoverParams` | calyx-ai/backend/main.py:581-598 | the backend has its own question for exactly the nine parameters its extractor knows |
| `ChatFlow.Tail` | calyx-ai/backend/main.py:1116-1128 | the apology iff the lower-cased prompt names a calculation term and no key was detected; otherwise the turn goes on to the language model |
| `ChatFlow.Decide` | calyx-ai/backend/main.py:519-1128 | a question iff the detected formula has a missing parameter (the question for the first one); IMC or composition when nothing is missing under that key; the apology as in `Tail` |
| `ChatFlow.Chat` | calyx-ai/backend/main.py:214-1128 | the endpoint run step by step equals the reply function |
| `ChatFlow.NoPromptIff` | calyx-ai/backend/main.py:219-222 | the prompt is refused iff it is empty once stripped |
| `ChatFlow.AsksFirstMissing` | calyx-ai/backend/main.py:568-600 | with a formula detected, the reply is a question iff a registry parameter was not extracted; it is the question for the first such parameter in registry order |
| `ChatFlow.ApologyIff` | calyx-ai/backend/main.py:1116-1128 | the apology iff the prompt is non-empty and names a calculation, no key was detected, and no detected formula asked a question first |
| `ChatFlow.NothingMissing` | calyx-ai/backend/main.py:568-575 | nothing missing means every name the registry lists was extracted |
| `ChatFlow.DecidesComposition` | calyx-ai/backend/main.py:646 | nothing missing under the composition key runs the composition calculation |
| `ChatFlow.DecideComposition` | calyx-ai/backend/main.py:646-666 | on well-formed parameters the composition branch never gives the guard error; it fails only on a zero density or a missing `imc` formula |
| `ChatFlow.DecideImc` | calyx-ai/backend/main.py:602-615 | on well-formed parameters the IMC branch always computes |
| `ChatFlow.ChatCompositionNoGuard` | calyx-ai/backend/main.py:519-666 | from the chat, a composition formula asking for every measurement either asks a question or computes without the guard error, failing iff the density is zero or there is no `imc` formula |
| `ChatFlow.ChatImcComputes` | calyx-ai/backend/main.py:519-621 | from the chat, an IMC formula asking for weight and height either asks a question or computes |
| `TestCompleto.DetectFormula` | calyx-ai/backend/test_completo.py:13-69 | no key means no formula; the key is `imc` or `composicion_corporal` |
| `TestCompleto.DetectFormulaCases` | calyx-ai/backend/test_completo.py:31-69 | composition iff a composition alias in the last user line, or (no IMC alias there and) a composition alias or both arm and skinfold words in the dialogue; IMC iff otherwise an IMC alias in the last line or the dialogue; nothing iff neither |
| `TestCompleto.NewCompositionRequest` | calyx-ai/backend/test_completo.py:199-225 | a composition alias in the last user line selects composition and sets the new-request flag |
| `TestCompleto.CompositionLine` | calyx-ai/backend/test_completo.py:197 | a dialogue ending in `user: composicion corporal` has that phrase as its last user text |
| `TestCompleto.UserComposition` | calyx-ai/backend/test_completo.py:197 | "user: composicion corporal" is a user line with text "composicion corporal" |
| `TestCompleto.LowerCaseLine` | calyx-ai/backend/test_completo.py:197 | that line is already in lower case |
| `TestCompleto.CompositionAlias` | calyx-ai/backend/test_completo.py:31-35 | "composicion corporal" holds a composition alias |
| `TestCompleto.ChangeOfFormula` | calyx-ai/backend/test_completo.py:189-229 | Test 1's shape: after any exchange, a last line `user: composicion corporal` detects composition, sets the flag and scans only the last three lines |
| `TestCompleto.WindowOnly` | calyx-ai/backend/test_completo.py:77-82 | with the flag set, lines before the last three never change the extracted parameters |
| `TestCompleto.AnswerKeepsDialogue` | calyx-ai/backend/test_completo.py:252-267 | a bare number as the last user text never sets the flag, so Test 2's answer is read against the whole dialogue |
| `TestCompleto.FirstSome` | calyx-ai/backend/test_completo.py:109-120 | the first value from an index on is absent iff every later slot is empty |
| `TestCompleto.FirstSomeAt` | calyx-ai/backend/test_completo.py:109-120 | the first value is the one at the first index that holds one |
| `TestCompleto.LineValue` | calyx-ai/backend/test_completo.py:111-118 | the first number of the stripped next line that the range accepts is in bounds |
| `TestCompleto.Readings` | calyx-ai/backend/test_completo.py:109-118 | what each line reads, one entry per line |
| `TestCompleto.NextLineValue` | calyx-ai/backend/test_completo.py:106-120 | the next-line fallback finds nothing iff no keyword line is followed by an accepted number, and what it finds is in bounds |
| `TestCompleto.NextLineValueAt` | calyx-ai/backend/test_completo.py:106-120 | the fallback takes the value under the first keyword line that yields one |
| `TestCompleto.LoneMFUpper` | calyx-ai/backend/test_completo.py:181-183 | `re.search(r'\b([MFmf])\b', …).group(1).upper()` is `M` or `F` |
| `TestCompleto.SexReadAt` | calyx-ai/backend/test_completo.py:179-183 | a `sexo` line reads the next line's lone letter, always `M` or `F` |
| `TestCompleto.SexReadings` | calyx-ai/backend/test_completo.py:176-185 | what each line reads for sexo, one entry per line |
| `TestCompleto.NextLineSex` | calyx-ai/backend/test_completo.py:175-185 | the sexo fallback is `M` or `F`, and absent iff no `sexo` line is followed by a lone letter |
| `TestCompleto.NextLineSexAt` | calyx-ai/backend/test_completo.py:175-185 | the sexo fallback takes the letter under the first `sexo` line that has one |
| `TestCompleto.NextLineSexSome` | calyx-ai/backend/test_completo.py:175-185 | the sexo fallback finds a letter iff some line has one |
| `TestCompleto.OrElse` | calyx-ai/backend/test_completo.py:107 | a fallback runs only when the patterns found nothing |
| `TestCompleto.Assemble` | calyx-ai/backend/test_completo.py:72-187 | each parameter is stored iff found, under its own name, with its value |
| `TestCompleto.AssembleOk` | calyx-ai/backend/test_completo.py:99-169 | in-range values make a well-formed parameter map |
| `TestCompleto.NextLineLoop` | calyx-ai/backend/test_completo.py:106-120 | the nested next-line loop with its two `break`s equals the fallback function |
| `TestCompleto.NextLineSexLoop` | calyx-ai/backend/test_completo.py:175-185 | the sexo loop equals the sexo fallback function |
| `TestCompleto.ExtraerParametrosUsuario` | calyx-ai/backend/test_completo.py:71-187 | the script's extractor equals its extraction function, and the result is well formed |
| `TestCompleto.CompletoSearch` | calyx-ai/backend/test_completo.py:88-187 | the four searches, in order, equal the parameter function |
| `TestCompleto.PesoSearch` | calyx-ai/backend/test_completo.py:89-120 | the weight patterns, then the weight fallback only while no weight was found |
| `TestCompleto.AlturaSearch` | calyx-ai/backend/test_completo.py:122-157 | the height patterns, then the height fallback only while no height was found |
| `TestCompleto.LineIntsWhole` | calyx-ai/backend/test_completo.py:165-169 | `(\d{1,3})` matches read whole numbers |
| `TestCompleto.NextLineWhole` | calyx-ai/backend/test_completo.py:159-173 | an age from the fallback is whole |
| `TestCompleto.CompletoOk` | calyx-ai/backend/test_completo.py:71-187 | only peso, altura, edad and sexo are extracted, each in range, sexo as `M` or `F` |
| `TestCompleto.EdadFromNextLine` | calyx-ai/backend/test_completo.py:159-173 | edad is stored iff some `años` line is followed by an accepted whole number, and it is the number under the first such line |
| `TestCompleto.StoredFromNextLine` | calyx-ai/backend/test_completo.py:106-185 | a parameter stored as its fallback reads it comes from the first line that yields one |
| `TestCompleto.SexoFromNextLine` | calyx-ai/backend/test_completo.py:175-185 | sexo is stored iff some `sexo` line is followed by a lone letter, and it is that letter under the first such line |
| `TestCompleto.AlturaSources` | calyx-ai/backend/test_completo.py:122-157 | a height the metre patterns find wins; otherwise a height comes only from the fallback under an `altura` line |
| `TestCompleto.OneLineOnlyPatterns` | calyx-ai/backend/test_completo.py:106-185 | text of one line has no next line, so only the peso and altura patterns can store anything |
| `TestCompleto.FallbacksIndependent` | calyx-ai/backend/test_completo.py:106-157 | peso is stored iff its patterns or its own fallback find one, and likewise altura, independently |
| `TestSeparacion.DetectLastLine` | calyx-ai/backend/test_separacion_formulas.py:36-75 | no key means no formula |
| `TestSeparacion.DetectLastLineCases` | calyx-ai/backend/test_separacion_formulas.py:55-75 | composition iff a composition alias in the last user line; IMC iff an IMC alias there and no composition alias; nothing otherwise |
| `TestSeparacion.AliasesNeedC` | calyx-ai/backend/test_separacion_formulas.py:57-68 | every alias holds the letter `c`, so a text naming one holds it |
| `TestSeparacion.AnswerDetectsNothing` | calyx-ai/backend/test_separacion_formulas.py:36-75 | a bare-number last user text makes this detector find nothing, whatever came before |
| `TestSeparacion.FlagWithoutExemption` | calyx-ai/backend/test_separacion_formulas.py:151-160 | the script's flag, without the plain-answer exemption, equals the backend's flag |
| `TestSeparacion.SeparacionParams` | calyx-ai/backend/test_separacion_formulas.py:94-128 | only peso and altura; each present iff its patterns find an accepted value |
| `TestSeparacion.ExtraerParametros` | calyx-ai/backend/test_separacion_formulas.py:77-128 | the two pattern loops equal the extraction function, with a well-formed result |
| `TestSeparacion.Names` | calyx-ai/backend/test_separacion_formulas.py:171 | the names of the parameters, in order |
| `TestSeparacion.FaltantesNombres` | calyx-ai/backend/test_separacion_formulas.py:168-171 | the `faltantes` loop lists the names of the missing parameters, in registry order |
| `TestSeparacion.MissingAll` | calyx-ai/backend/test_separacion_formulas.py:191 | every parameter is missing iff none of their names was extracted |
| `TestSeparacion.MissingAllSame` | calyx-ai/backend/test_separacion_formulas.py:168-171 | with no name extracted the missing list is the whole parameter list |
| `TestSeparacion.NothingExtractedAllMissing` | calyx-ai/backend/test_separacion_formulas.py:175-194 | with empty parameters every registry parameter is missing, in the formula's order |
| `TestSeparacion.SeparationScenario` | calyx-ai/backend/test_separacion_formulas.py:136-165 | a last line `user: composicion corporal` with the formula registered: composition detected, flag set, only the last three lines scanned |
| `TestSexo.DetectSexo` | calyx-ai/backend/test_sexo.py:13-77 | no key means no formula |
| `TestSexo.AgreesWithBackend` | calyx-ai/backend/test_sexo.py:32-75 | wherever a fixed phrase decides, the script's detector agrees with the backend's |
| `TestSexo.NothingIff` | calyx-ai/backend/test_sexo.py:32-77 | `(None, None)` iff no composition alias in the last user line and no composition term, composition alias or IMC alias in the dialogue |
| `TestSexo.ShortAnswerFallsThrough` | calyx-ai/backend/test_sexo.py:52-77 | a last user text under three characters (such as `m`) falls through: composition iff a composition term or alias in the dialogue, else IMC iff an IMC alias |
| `TestSexo.ShortNamesNothing` | calyx-ai/backend/test_sexo.py:34-50 | a text under three characters names no alias |
| `TestSexo.SexAnswerLine` | calyx-ai/backend/test_sexo.py:87 | a dialogue ending in `user: M` has `m` as its last user text |
| `TestSexo.CompositionInProgressDetected` | calyx-ai/backend/test_sexo.py:101-119 | Test 2's shape: a dialogue opening with `user: composicion corporal` and ending in `user: M` detects composition |
| `Nutricion.Filas` | backend/calculos/nutricion.py:10-13 | one `{clave, valor}` row per item, in item order, with `valor = str(value)` |
| `Nutricion.Lineas` | backend/calculos/nutricion.py:19-22 | one `{linea: "key: value"}` entry per item, in item order |
| `Nutricion.Pasos` | backend/calculos/nutricion.py:28-31 | one `{linea: descripcion}` per step, in step order; `KeyError` iff some step lacks `descripcion` |
| `Nutricion.PasosSingle` | backend/calculos/nutricion.py:29-30 | a single step with a description gives exactly its one line |
| `Nutricion.CalcularInfoNutricionalBasica` | backend/calculos/nutricion.py:6-13 | the append loop builds exactly the rows; `food_data` is never read |
| `Nutricion.CalcularInfoNutricionalCompleta` | backend/calculos/nutricion.py:15-22 | the append loop builds exactly the lines; `food_data` is never read |
| `Nutricion.CalcularDesgloseCalculos` | backend/calculos/nutricion.py:24-31 | the append loop builds exactly the step lines, or raises at the first step without a description |
| `Nutricion.FilasAppend` | backend/calculos/nutricion.py:11-12 | the rows of two item lists laid end to end are the rows of each |
| `Nutricion.LineasAppend` | backend/calculos/nutricion.py:20-21 | the lines of two item lists laid end to end are the lines of each |
| `Nutricion.PasosAppend` | backend/calculos/nutricion.py:29-30 | two step lists laid end to end fail iff one fails, and otherwise give the lines of each |
| `Nutricion.RowsMatchLines` | backend/calculos/nutricion.py:10-22 | the basic rows and the console lines carry the same keys and texts |
| `Validators.ToFloat` | backend/utils/validators.py:20 | `float(v)` of a number is its value, of a bool 1.0 (the only truthy bool) |
| `Validators.FieldCheck` | backend/utils/validators.py:13-17 | the field loop only ever reports a failure |
| `Validators.ValidateFoodInput` | backend/utils/validators.py:4-25 | a valid answer always has the empty message |
| `Validators.FieldCheckPasses` | backend/utils/validators.py:13-17 | every field the loop lets through is present and truthy |
| `Validators.FieldCheckFirst` | backend/utils/validators.py:12-17 | the loop passes iff every field is present and truthy; otherwise it reports the first failing field, as missing if absent and as empty if falsy |
| `Validators.ValidIff` | backend/utils/validators.py:12-25 | `(True, "")` iff every field is present and truthy and cantidad converts to a number above zero |
| `Validators.NombreFirst` | backend/utils/validators.py:12-15 | an absent nombre is reported first, whatever else is wrong |
| `Validators.CantidadChecks` | backend/utils/validators.py:18-24 | with the fields in place, cantidad that does not convert gives "not a number", and one ≤ 0 gives "greater than zero" |
| `Validators.ValidateString` | backend/utils/validators.py:13-16 | on a string, `in` is a substring test: without "nombre" in the text it returns "Falta el campo requerido: nombre", otherwise `s["nombre"]` raises |
| `Alimento.GetUpTo` | backend/main.py:189 | `dict(zip(cols, row)).get(key)` is present iff some column has the key, and then holds the cell of the last such column |
| `Alimento.TableGet` | backend/main.py:214 | `table.get(key, default)` is the default for an unknown key, otherwise the entry of that key |
| `Alimento.CamposRelevantes` | backend/main.py:192-214 | an unknown group gets the six default fields |
| `Alimento.CantidadFirst` | backend/main.py:194-212 | every field list, the default included, starts with `cantidad` |
| `Alimento.TableFirst` | backend/main.py:214 | when every list of the category table starts with `cantidad`, so does the list it gives for any key |
| `Alimento.FieldEntry` | backend/main.py:227-234 | the entry goes under the title-cased field, or under "Porción base" only for a non-zero `cantidad`; a non-zero number's text starts with the number and a space |
| `Alimento.PorcionBaseIff` | backend/main.py:228-232 | the entry goes under "Porción base" iff the field is `cantidad` and its value is a non-zero number |
| `Alimento.FieldTextNotNumber` | backend/main.py:233-234 | a value that is not a non-zero number goes under the title-cased field as `str(value)`, or "0" when falsy |
| `Alimento.Put` | backend/main.py:230-234 | `d[k] = v` keeps the keys distinct; an existing key keeps its place and gets the value, a new key is appended |
| `Alimento.AddField` | backend/main.py:224-236 | one step of the field loop keeps the table's keys distinct |
| `Alimento.AddFields` | backend/main.py:223-236 | the field loop keeps the table's keys distinct |
| `Alimento.BuildInfo` | backend/main.py:217-236 | the field loop equals the field-by-field function from the `Alimento`/`Grupo` table |
| `Alimento.AddFieldsKeeps` | backend/main.py:223-236 | the field loop never moves or drops an entry and adds at most one per field |
| `Alimento.MissingFieldSkipped` | backend/main.py:224 | a field missing from the row adds nothing |
| `Alimento.PresentFieldAppended` | backend/main.py:224-234 | a present field under a new key appends its formatted entry |
| `Alimento.InfoOpens` | backend/main.py:217-220 | `info_basica` opens with "Alimento" and "Grupo" |
| `Alimento.Siguientes` | backend/main.py:241-242 | `rows[1:3]`: empty for one row, else the next one or two rows |
| `Alimento.Variantes` | backend/main.py:243-248 | one variant per row, in row order |
| `Alimento.BuildVariantes` | backend/main.py:240-248 | the variant loop equals the variants of `rows[1:3]` |
| `Alimento.VariantesSnoc` | backend/main.py:244 | one more row appends its variant |
| `Alimento.VariantesBound` | backend/main.py:241-248 | at most two variants, and variant `k` comes from result row `k + 1` |
| `Alimento.Grupo` | backend/main.py:192 | `.lower()` of the group succeeds iff the cell is text |
| `Alimento.Answer` | backend/main.py:179-260 | 404 iff the lookup is empty, otherwise 500 or the table; a table has at most two variants from the next rows and the exact-match message iff it has none |
| `Alimento.ExactaNotSimilar` | backend/main.py:250-254 | the exact-match and similar-match messages differ |
| `Alimento.BuscarAlimentoAsWritten` | backend/main.py:164-174 | as written every answer is an error: 400 iff the name is too short, otherwise 500 with the internal-error text |
| `Alimento.BuscarAlimentoFixed` | backend/main.py:164-260 | with the validation doing what it means, 400 iff the name is too short, and a table only for a non-empty lookup |
| `Alimento.AsWrittenAlwaysFails` | backend/main.py:170-174 | as written, every name that passes the length guard ends in the `except`, answering 500, and the lookup is never reached |
| `Alimento.AsWrittenDiffers` | backend/main.py:172-173 | a name and lookup where the as-written handler answers 500 and the corrected one answers with the table |
| `Alimento.BuscarAlimento` | backend/main.py:163-260 | the handler with its loops equals the corrected handler function |
| `Alimento.ShortNameRefused` | backend/main.py:167-168 | a name under two characters once stripped gets 400 before any lookup, in both versions |
| `Alimento.NotFound` | backend/main.py:179-182 | an empty lookup answers 404 naming the query |
| `Alimento.FoundAnswer` | backend/main.py:238-260 | a found food answers with rows opening with Alimento and Grupo, `min(2, rows - 1)` variants, and the exact-match message iff the lookup gave one row |
| `Alimento.GroupNotText` | backend/main.py:192 | a group that is not text makes the handler answer 500 |
| `FoodRow.Limpiar` | calyx-ai/backend/main.py:74-83 | a name already lower-case, stripped, without a leading "de " and without the phrases is only stripped of its accents |
| `FoodRow.DeleteAllAbsent` | calyx-ai/backend/main.py:76-79 | phrases that do not occur are not deleted |
| `FoodRow.CompararFlexible` | calyx-ai/backend/main.py:107-114 | two names compare flexibly iff one cleaned name holds the other |
| `FoodRow.ReplaceAbsent` | calyx-ai/backend/main.py:76-79 | `replace` without an occurrence changes nothing |
| `FoodRow.ReplaceAtStart` | calyx-ai/backend/main.py:76-80 | an occurrence at the start is replaced, and the rest is processed on its own |
| `FoodRow.DeleteShortens` | calyx-ai/backend/main.py:76-80 | deleting never lengthens the text |
| `FoodRow.DeRuleDeletesEvery` | calyx-ai/backend/main.py:80 | a leading "de " makes `replace("de ", "")` delete every "de " of the text, not only the first |
| `FoodRow.DeRuleKeeps` | calyx-ai/backend/main.py:80 | a text not starting with "de " keeps every "de " |
| `FoodRow.DeRuleSingle` | calyx-ai/backend/main.py:80 | a leading "de " with no other occurrence leaves just the rest |
| `FoodRow.FlexibleIsContainment` | calyx-ai/backend/main.py:107-114 | the equality test is subsumed: the flexible test is containment either way |
| `FoodRow.FlexibleSymmetric` | calyx-ai/backend/main.py:107-114 | the flexible comparison does not depend on the order of its arguments |
| `FoodRow.Cleaned` | calyx-ai/backend/main.py:119 | the cleaned name of each row, in row order |
| `FoodRow.FirstWhere` | calyx-ai/backend/main.py:118-123 | the search finds the first row from a position that passes the test, or proves none does |
| `FoodRow.FirstWhereIs` | calyx-ai/backend/main.py:118-123 | the first index that passes is the one found |
| `FoodRow.FirstWhereNone` | calyx-ai/backend/main.py:118-123 | nothing is found when no row passes |
| `FoodRow.MasComun` | calyx-ai/backend/main.py:116-124 | `None` iff there are no rows; otherwise one of the rows |
| `FoodRow.FindFirst` | calyx-ai/backend/main.py:118-123 | one search loop returns the first passing index |
| `FoodRow.GetMasComunFlexible` | calyx-ai/backend/main.py:116-124 | the method with its two loops equals the selection function |
| `FoodRow.ExactWins` | calyx-ai/backend/main.py:117-120 | an equal cleaned name wins at its first position, even over earlier rows that match flexibly |
| `FoodRow.FlexibleNext` | calyx-ai/backend/main.py:121-123 | with no equal cleaned name, the first row matching flexibly is chosen |
| `FoodRow.FallbackFirst` | calyx-ai/backend/main.py:117-124 | an empty query, or one no row matches even flexibly, gives the first row |
| `ThinkBlocks.MatchAtIff` | backend/main.py:61 | the character-by-character comparison is exactly an occurrence of the tag |
| `ThinkBlocks.FindFrom` | backend/main.py:61 | a found tag lies at or after the start position and inside the text |
| `ThinkBlocks.FindFromSpec` | backend/main.py:61 | the search finds the first occurrence from the start position, or there is none |
| `ThinkBlocks.FindFromIs` | backend/main.py:61 | the first occurrence from the start position is the one found |
| `ThinkBlocks.FirstBlock` | backend/main.py:60-61 | a block found has its opening tag before its closing tag, both inside the text |
| `ThinkBlocks.FirstBlockSpec` | backend/main.py:60-61 | the block found is the leftmost match of `<think>(.*?)</think>` with DOTALL (the lazy group ends at the first closing tag), and none is found only when there is no block |
| `ThinkBlocks.RemoveBlocks` | backend/main.py:66 | removing the blocks never lengthens the text |
| `ThinkBlocks.RemoveStep` | backend/main.py:66 | the removal keeps the text before the first block and goes on after it |
| `ThinkBlocks.RemoveNone` | backend/main.py:66 | with no block left the rest is kept unchanged |
| `ThinkBlocks.ParseDeepseekResponse` | backend/main.py:60-70 | there is thinking text iff the reply holds a block |
| `ThinkBlocks.NoBlockUnchanged` | backend/main.py:68-70 | without both tags the reply comes back unchanged, with no thinking text |
| `ThinkBlocks.FirstBlockOfConcat` | backend/main.py:60-61 | in `p <think> t </think> q`, with no opening tag in `p` and no closing tag in `t`, the first block is the one written out |
| `ThinkBlocks.RemoveConcat` | backend/main.py:64-66 | when the first block of `p <think> t </think> q` is the one written out, its content is `t` and the removal leaves `p` followed by `q` with its blocks removed |
| `ThinkBlocks.ParseConcat` | backend/main.py:63-67 | such a reply splits into the stripped `t` as thinking and the stripped `p` followed by `q` with its blocks removed as message |
| `ThinkBlocks.MessageNoLonger` | backend/main.py:60-70 | the message never holds more text than the reply |
| `Fallback.PromptOf` | backend/fallback_server.py:54-60 | without a body or without a prompt the prompt is "", otherwise it is the stripped, lower-cased prompt |
| `Fallback.FirstTest` | backend/fallback_server.py:63-164 | the position found is the first test from there that holds, or no test from there holds |
| `Fallback.OrderRanks` | backend/fallback_server.py:63-164 | every branch of the `elif` chain sits at its own rank, so no branch is reached twice |
| `Fallback.Route` | backend/fallback_server.py:63-164 | the final `else` iff no test holds; otherwise the branch of a test that holds with no earlier one holding |
| `Fallback.RouteFirst` | backend/fallback_server.py:63-164 | the chain answers with branch `k` iff test `k` holds and no earlier one does, and with the final `else` iff no test holds |
| `Fallback.GreetingFirst` | backend/fallback_server.py:63-64 | any prompt holding "hi" gets the greeting |
| `Fallback.GreetingCatchesHi` | backend/fallback_server.py:63-64 | "carbohidratos" and "hierro" get the greeting, because both hold "hi" |
| `Fallback.KeywordsNonEmpty` | backend/fallback_server.py:63-160 | no keyword of the chain is the empty text |
| `Fallback.EmptyPromptDefault` | backend/fallback_server.py:59-164 | the empty prompt gets the final `else` |
| `Fallback.UnitAt` | backend/fallback_server.py:74 | a unit found is one of g, kg, gr, gramos, gramo, followed by whitespace |
| `Fallback.NumberAt` | backend/fallback_server.py:74 | `\d+(?:\.\d+)?` matches only digits and points, starting with a digit |
| `Fallback.FoodAfterUnit` | backend/fallback_server.py:74 | the food group lies after the whitespace following the unit |
| `Fallback.QtyAt` | backend/fallback_server.py:74 | a match has its number before its food group, both inside the prompt |
| `Fallback.QtySearch` | backend/fallback_server.py:74 | `re.search` finds the first start position where the pattern matches, or there is none |
| `Fallback.SplitSecond` | backend/fallback_server.py:77 | the second word of the match, when there is one, is non-empty and holds no whitespace |
| `Fallback.Grams` | backend/fallback_server.py:76-82 | a kg quantity is multiplied by 1000, any other is kept |
| `Fallback.TwoKgMatch` | backend/fallback_server.py:74 | a prompt starting with "2kg de arroz", followed by nothing or by a character the name group does not take, matches as 2, "kg" and the food "arroz" |
| `Fallback.KgGluedNotConverted` | backend/fallback_server.py:77-82 | as written, such a prompt reads "de" as the unit and keeps 2, where the corrected reading gives 2000 grams |
| `Fallback.KgGluedSingleWord` | backend/fallback_server.py:74-77 | as written, a prompt starting with "2kg  5" makes a match of one word, so `split()[1]` raises, where the corrected reading gives 2000 grams |
| `Fallback.TwoKgSpacesMatch` | backend/fallback_server.py:74 | a prompt starting with "2kg  5" matches as 2, "kg" and a food group of one space, the greedy `\s+` giving one space back |
| `Fallback.KgAsWritten` | backend/fallback_server.py:77-82 | as written the unit is unreadable iff the match has fewer than two words, and a kg conversion needs "kg" in the lower-cased match |
| `Fallback.GramsAsWritten` | backend/fallback_server.py:76-82 | as written the grams are the amount or 1000 times it, missing iff `split()[1]` raises, and equal to the corrected grams whenever the second word reads the unit |
| `Fallback.CaloriasReplyAsWritten` | backend/fallback_server.py:72-111 | the calorie branch as written answers as the corrected one when there is no quantity or the second word reads the unit, and with the internal error when the match has one word |
| `Fallback.ReplyAsWritten` | backend/fallback_server.py:63-164 | the reply chain as written differs from the corrected one only in the calorie branch |
| `Fallback.HandleChatAsWritten` | backend/fallback_server.py:50-170 | `do_POST` as written answers as the corrected handler for any prompt outside the calorie branch |
| `Fallback.SpacedHandlersAgree` | backend/fallback_server.py:50-170 | when the prompt has no quantity, or whitespace between its number and unit, both handlers give the same reply |
| `Fallback.SingleWordInternalError` | backend/fallback_server.py:72-77 | in the calorie branch a one-word quantity match makes the handler as written answer with the internal error |
| `Fallback.GluedKgReplies` | backend/fallback_server.py:72-98 | a calorie prompt starting with "2kg de arroz" is answered for 2 grams as written and for 2000 grams corrected |
| `Fallback.GluedSpacesReplies` | backend/fallback_server.py:72-98 | a calorie prompt starting with "2kg  5" gets the internal error as written, and the quantity reply for 2000 grams corrected |
| `Fallback.GluedPromptRoutes` | backend/fallback_server.py:63-72 | "2kg de arroz, kcal" reaches the calorie branch and fits the glued-unit lemma |
| `Fallback.GluedSpacesPromptRoutes` | backend/fallback_server.py:63-72 | "2kg  5 kcal" reaches the calorie branch |
| `Fallback.EarlyTestsNeed` | backend/fallback_server.py:63-70 | a prompt without 'h', 'y', 'i' and 'm' passes none of the greeting, help and IMC tests |
| `Fallback.UnitWord` | backend/fallback_server.py:74-81 | every unit is one lower-case word, and "kg" is the only one starting with "kg" |
| `Fallback.QtyParts` | backend/fallback_server.py:74 | a match is a number, optional spaces, a unit, then whitespace before the food |
| `Fallback.KgSpacedAgrees` | backend/fallback_server.py:74-82 | with whitespace between number and unit, the second word is the unit, so the as-written and corrected readings agree |
| `Fallback.NameAt` | backend/fallback_server.py:99 | a match of the name pattern at a position lies inside the prompt |
| `Fallback.NameSearch` | backend/fallback_server.py:99 | a name found by `re.search` lies inside the prompt |
| `Fallback.NameSearchFinds` | backend/fallback_server.py:99-100 | a prompt holding any name character names a food |
| `Fallback.AfterKeyword` | backend/fallback_server.py:115 | the food group after a nutrient keyword lies after it |
| `Fallback.NutrientAt` | backend/fallback_server.py:115 | a match of the nutrient pattern at a position has its group after its keyword |
| `Fallback.NutrientSearch` | backend/fallback_server.py:115 | a group found by `re.search` of the nutrient pattern lies inside the prompt |
| `Fallback.BasadoEn` | backend/fallback_server.py:93-94 | the per-100 g note is empty iff the quantity is 100 |
| `Fallback.EnergyFor` | backend/fallback_server.py:89 | 100 g gives the energy per 100 g, and non-negative inputs give non-negative energy |
| `Fallback.QtyReply` | backend/fallback_server.py:85-98 | the quantity reply is the internal error iff the energy is present but not a number; without energy it quotes the food name |
| `Fallback.NameReply` | backend/fallback_server.py:101-109 | the name-only reply is always a message: with energy it states the energy per 100 g, without it quotes the food name |
| `Fallback.CaloriasReply` | backend/fallback_server.py:72-111 | the internal error only with a quantity; the fixed question iff neither pattern matches |
| `Fallback.NutrientLines` | backend/fallback_server.py:122-135 | a heading, then five or six bullet lines |
| `Fallback.NutrientesReply` | backend/fallback_server.py:113-139 | the nutrient branch never errs, and gives its fixed question iff the pattern does not match |
| `Fallback.ReplyTo` | backend/fallback_server.py:63-164 | the internal error only from the calorie branch; a fixed text is the routed branch's, and every branch but calorie and nutrient answers with it |
| `Fallback.HandleChat` | backend/fallback_server.py:50-170 | the internal error only for a prompt routed to the calorie branch; a fixed text is the routed branch's |
| `Fallback.NoPromptDefault` | backend/fallback_server.py:54-164 | a request without a body or without a prompt gets the default message |
| `Fallback.NoKeywordDefault` | backend/fallback_server.py:63-164 | a prompt without any keyword gets the default message |
| `Fallback.QtyEnergy` | backend/fallback_server.py:85-94 | with a quantity and a found energy the reply states the energy scaled by the grams, and ends with the per-100 g note iff the quantity is not 100 |
| `Fallback.EnergyTextShape` | backend/fallback_server.py:92-94 | the energy text holds the scaled energy to one decimal, and ends with the per-100 g note iff the quantity is not 100 |
| `Fallback.CaloriasAlwaysNames` | backend/fallback_server.py:72-111 | in the calorie branch the name pattern always matches, so the closing question asking for a food is never the answer |
| `Fallback.FibraLine` | backend/fallback_server.py:122-136 | the fibra line is there iff the row has a fibra value other than "N/A", and it is then the last of six lines |
| `Resolver.Mul` | calyx-ai/frontend/src/hooks/useFormulaResolver.ts:55 | the JavaScript product: finite operands multiply, NaN propagates |
| `Resolver.Pow2` | calyx-ai/frontend/src/hooks/useFormulaResolver.ts:53 | `Math.pow(a, 2)`: the square of a finite value, NaN iff NaN, +∞ for ±∞ |
| `Resolver.Div` | calyx-ai/frontend/src/hooks/useFormulaResolver.ts:53 | the JavaScript quotient: finite over non-zero divides, over zero is not finite, NaN propagates |
| `Resolver.LabelOf` | calyx-ai/frontend/src/hooks/useFormulaResolver.ts:62-70 | no label iff no band holds the value with `min <= v < max`; otherwise the text of the first band that does |
| `Resolver.LabelOnlyFinite` | calyx-ai/frontend/src/hooks/useFormulaResolver.ts:65 | only a finite value is labelled |
| `Resolver.UpperEdgeExcluded` | calyx-ai/frontend/src/hooks/useFormulaResolver.ts:65 | a value on a shared edge gets the second band's text, where the backend's inclusive bands give the first |
| `Resolver.Compute` | calyx-ai/frontend/src/hooks/useFormulaResolver.ts:51-59 | exactly `imc` and `get` are computed; any other name is not implemented |
| `Resolver.ImcArithmetic` | calyx-ai/frontend/src/hooks/useFormulaResolver.ts:52-53 | with finite inputs imc is peso / altura² for a non-zero square and not finite for zero |
| `Resolver.GetArithmetic` | calyx-ai/frontend/src/hooks/useFormulaResolver.ts:54-55 | with finite inputs get is tmb × factor_actividad |
| `Resolver.ImcWithoutHeightIsNaN` | calyx-ai/frontend/src/hooks/useFormulaResolver.ts:53-65 | without altura imc is NaN, which no band labels |
| `Resolver.RankedDeps` | calyx-ai/frontend/src/hooks/useFormulaResolver.ts:36-38 | in a ranked registry every dependency of a formula ranks below it, so the recursion ends |
| `Resolver.UnknownFormula` | calyx-ai/frontend/src/hooks/useFormulaResolver.ts:27-28 | an unknown name fails with "Fórmula no encontrada: " and its name, storing nothing |
| `Resolver.LoopFilled` | calyx-ai/frontend/src/hooks/useFormulaResolver.ts:31-44 | the parameter loop keeps every completed name explained and only adds names |
| `Resolver.FilledAdd` | calyx-ai/frontend/src/hooks/useFormulaResolver.ts:38-39 | adding a dependency's successful result keeps every completed name explained |
| `Resolver.FilledKnown` | calyx-ai/frontend/src/hooks/useFormulaResolver.ts:31-39 | a completed name the caller did not supply is a formula |
| `Resolver.LoopMissing` | calyx-ai/frontend/src/hooks/useFormulaResolver.ts:33-44 | when no dependency fails, the missing list is the plain parameters without a value, in registry order |
| `Resolver.LoopDep` | calyx-ai/frontend/src/hooks/useFormulaResolver.ts:34-39 | when no dependency fails, an unsupplied parameter naming a formula ends up filled with that formula's result |
| `Resolver.DependenciesSubstituted` | calyx-ai/frontend/src/hooks/useFormulaResolver.ts:31-44 | the caller's values are kept, and each unsupplied parameter naming a formula takes that formula's result, resolved from the caller's own values |
| `Resolver.ResolveCases` | calyx-ai/frontend/src/hooks/useFormulaResolver.ts:33-59 | a dependency's error is the call's error; missing plain parameters fail the call listing all of them in order; otherwise exactly imc and get succeed |
| `Resolver.OkResult` | calyx-ai/frontend/src/hooks/useFormulaResolver.ts:61-74 | a success returns the formula's name, its value and the first half-open band's text, and is the last result stored |
| `Resolver.Apply` | calyx-ai/frontend/src/hooks/useFormulaResolver.ts:73 | the stored results add exactly their names to the keys |
| `Resolver.ApplyConcat` | calyx-ai/frontend/src/hooks/useFormulaResolver.ts:73 | storing two runs of results is storing one after the other |
| `Resolver.ApplyLast` | calyx-ai/frontend/src/hooks/useFormulaResolver.ts:73 | the last store of a name wins |
| `Resolver.ApplyOthers` | calyx-ai/frontend/src/hooks/useFormulaResolver.ts:73 | a name that is not stored keeps its entry |
| `Resolver.FormulaResolver.constructor` | calyx-ai/frontend/src/hooks/useFormulaResolver.ts:22-23 | `resultados` starts empty |
| `Resolver.FormulaResolver.ResolverFormula` | calyx-ai/frontend/src/hooks/useFormulaResolver.ts:26-75 | the call's outcome is the resolution's, and `resultados` receives every stored result, dependencies first, in order |
| `Resolver.StoredAfterOk` | calyx-ai/frontend/src/hooks/useFormulaResolver.ts:72-74 | after a success `resultados` holds the result under the formula's name, and names not stored keep their entries |
| `ConsoleText.TerminatorRun` | calyx-ai/frontend/src/utils/formatConsole.ts:4 | the run found is made of line terminators and ends at one that is not, or at the end |
| `ConsoleText.SpacesThenCharIff` | calyx-ai/frontend/src/utils/formatConsole.ts:4 | `\s*.+` matches iff something other than line terminators follows |
| `ConsoleText.YamlShapeFrom` | calyx-ai/frontend/src/utils/formatConsole.ts:4 | a '#' opening a line and a ':' each with text after them on their line make the YAML shape |
| `ConsoleText.NoColonNoYaml` | calyx-ai/frontend/src/utils/formatConsole.ts:4 | a text without ':' never has the YAML shape |
| `ConsoleText.RemoveFirst` | calyx-ai/frontend/src/utils/formatConsole.ts:19 | `replace` with a string pattern removes one character iff it occurs, and nothing otherwise |
| `ConsoleText.RemoveFirstAt` | calyx-ai/frontend/src/utils/formatConsole.ts:19 | the occurrence removed is the first one |
| `ConsoleText.Middle` | calyx-ai/frontend/src/utils/formatConsole.ts:20 | `slice(1, length - 1)` holds the lines strictly between the first and the last |
| `ConsoleText.BracketTitle` | calyx-ai/frontend/src/utils/formatConsole.ts:19 | a first line "[x]" gives the title `x`, trimmed |
| `ConsoleText.PlainTitle` | calyx-ai/frontend/src/utils/formatConsole.ts:19 | a first line without brackets is only trimmed |
| `ConsoleText.ConsoleSplit` | calyx-ai/frontend/src/utils/formatConsole.ts:18-21 | a console answer becomes a block whose output, the last line, holds no newline; a single line is all output, with empty input |
| `ConsoleText.TwoLineBlock` | calyx-ai/frontend/src/utils/formatConsole.ts:18-21 | two lines are the title line and the output, with empty input |
| `ConsoleText.ManyLineBlock` | calyx-ai/frontend/src/utils/formatConsole.ts:18-21 | the first line, the input and the output, joined by newlines, give back the text |
| `ConsoleText.InputLines` | calyx-ai/frontend/src/utils/formatConsole.ts:20 | the input splits back into the middle lines |
| `ConsoleYaml.Lines` | calyx-ai/frontend/src/components/ConsoleBlockYaml.tsx:9 | no kept line is empty |
| `ConsoleYaml.Kept` | calyx-ai/frontend/src/components/ConsoleBlockYaml.tsx:9 | at most as many lines as were split, none of them empty |
| `ConsoleYaml.ParseYamlBlock` | calyx-ai/frontend/src/components/ConsoleBlockYaml.tsx:7-21 | the loop gives the header of the last '#' line and the pairs of the other lines holding ':' |
| `ConsoleYaml.PairOf` | calyx-ai/frontend/src/components/ConsoleBlockYaml.tsx:15-17 | a key never holds ':', and a line without ':' is all key with an empty value |
| `ConsoleYaml.HeaderOf` | calyx-ai/frontend/src/components/ConsoleBlockYaml.tsx:12-14 | a non-empty header is the text of one of the '#' lines |
| `ConsoleYaml.PairsOf` | calyx-ai/frontend/src/components/ConsoleBlockYaml.tsx:12-18 | every pair comes from a pair line, and there are no more pairs than lines |
| `ConsoleYaml.KeptTrimmed` | calyx-ai/frontend/src/components/ConsoleBlockYaml.tsx:9 | every kept line is already trimmed |
| `ConsoleYaml.TextKept` | calyx-ai/frontend/src/components/ConsoleBlockYaml.tsx:9 | a line with text on it is kept, trimmed |
| `ConsoleYaml.KeptAppend` | calyx-ai/frontend/src/components/ConsoleBlockYaml.tsx:9 | trimming and dropping go line by line |
| `ConsoleYaml.BlankDropped` | calyx-ai/frontend/src/components/ConsoleBlockYaml.tsx:9 | a blank line is dropped |
| `ConsoleYaml.NoHeaderLine` | calyx-ai/frontend/src/components/ConsoleBlockYaml.tsx:10-14 | without a '#' line the header is "" |
| `ConsoleYaml.LastHeaderWins` | calyx-ai/frontend/src/components/ConsoleBlockYaml.tsx:12-14 | the header is the text of the last '#' line |
| `ConsoleYaml.PairsAppend` | calyx-ai/frontend/src/components/ConsoleBlockYaml.tsx:12-18 | the pairs of two runs of lines are the pairs of each, in order |
| `ConsoleYaml.OneLinePairs` | calyx-ai/frontend/src/components/ConsoleBlockYaml.tsx:13-18 | a line gives a pair iff it is not a header and holds ':' |
| `ConsoleYaml.PairsCount` | calyx-ai/frontend/src/components/ConsoleBlockYaml.tsx:12-18 | there are as many pairs as pair lines |
| `ConsoleYaml.PairAtFirstColon` | calyx-ai/frontend/src/components/ConsoleBlockYaml.tsx:16-17 | a pair is split at the first ':', the value keeping any later ':' |
| `ConsoleYaml.PairLineSplits` | calyx-ai/frontend/src/components/ConsoleBlockYaml.tsx:15-17 | every pair line splits at its first ':' into the trimmed key and the trimmed rest |
| `CalyxFormatConsole.FormatConsole` | calyx-ai/frontend/src/utils/formatConsole.ts:2-23 | YAML iff the YAML test holds, with the text as input; not a console iff there is no marker and no YAML; a block iff there is a marker and no YAML, and it is then the split of the text |
| `CalyxFormatConsole.SingleLineConsole` | calyx-ai/frontend/src/utils/formatConsole.ts:16-22 | a one-line console answer is all output, with empty input |
| `CalyxFormatConsole.NoColonIsBlock` | calyx-ai/frontend/src/utils/formatConsole.ts:4-22 | a console answer without ':' is split into a block, never YAML |
| `FormatConsole.FormatConsole` | frontend/src/utils/formatConsole.ts:2-34 | the same three cases as the older version, with this version's YAML test, a block again being the split of the text |
| `FormatConsole.TableNeverYaml` | frontend/src/utils/formatConsole.ts:4-6 | a line starting with a vertical bar makes a table, never YAML |
| `FormatConsole.NutritionNeverYaml` | frontend/src/utils/formatConsole.ts:9-12 | a text holding a nutrition word, in any case, is never YAML |
| `FormatConsole.SameYamlOtherwise` | frontend/src/utils/formatConsole.ts:2-16 | without a table or a nutrition word both versions agree |
| `FormatConsole.YamlNarrower` | frontend/src/utils/formatConsole.ts:2-20 | the exclusions only take YAML away: YAML here is YAML in the older version |
| `FormatConsole.TableVersionsDiffer` | frontend/src/utils/formatConsole.ts:4-33 | a YAML-shaped table with a console marker is YAML for the older version and a block here |
| `FormatConsole.TableExample` | frontend/src/utils/formatConsole.ts:4-15 | the text "#a", newline, vertical bar, "b:c" is YAML only for the older version |

## Left out

- HTTP and transport: the FastAPI endpoints, request bodies and headers, `BaseHTTPRequestHandler` response writing and status plumbing. Only the decisions inside the handlers are modelled, and an answer is a value (`Respuesta`, `Reply`).
- The language-model layer (`ai_engine.py`, tool calls, the model runtimes): foreign calls. The reply text handed to `parse_deepseek_response` is an input.
- The database and the semantic search: a food lookup is an input. In `Alimento` it is the columns and rows of the result; in `Fallback` it is a `lookup` function from a name to an optional row.
- Malformed JSON bodies and a `prompt` that is not a string: the fallback handler's `except` on them is outside the model. `Body` carries an optional string prompt.
- The greeting texts chosen with `random.choice` and the random download progress: nondeterminism.
- The transcendental steps of body composition (the π in the arm-muscle area and the `log10` in the density): these are parameters of the calculation. The threshold classifiers that use their results are modelled.
- Python float formatting (`str(float)`, `f"{x}"`, `:.1f`) and `float(str)`: these are parameters (`floatStr`, `fmt1`, `parse`) because their exact digits depend on the binary float. Values are exact reals, so rounding errors of binary floating point are not modelled.
- Regular-expression engine internals: each pattern is an explicit scanner with the pattern's greedy runs and leftmost-first search. Backtracking is modelled only where one of the patterns used needs it: the optional `de` of the fallback's quantity pattern, and the single character a greedy `\s+` gives back so that the following group can match (`GroupAfterSpaces`, `AfterKeyword`, `PrefixAt`).
- Unicode: `lower`/`toLowerCase` are modelled on the ASCII and Latin-1 capitals (the accented Spanish letters among them), and `upper` on ASCII letters. There is no normalisation and no case folding beyond those: `re.IGNORECASE` folds further (the Kelvin sign K matches `k`), and that is not modelled. Digits are the ASCII ones, although Python's `\d`, `float()` and `int()` accept every Unicode decimal digit. Word characters for `\w` and `\b` stop at U+00FF, although Python counts every Unicode letter and digit. Whitespace follows each language's own definition (`str.isspace` for Python, WhiteSpace and LineTerminator for JavaScript).
- The text of the `TypeError`s in the as-written food search depends on the Python version: `Alimento` uses the current wording as fixed messages.
- React rendering, timers, polling, theme and Electron: not decisions of the core.
- TestCompleto.AnswerKeepsDialogue: Test 2 of `test_completo.py` expects peso and edad from its literal dialogue. The lemma states the shape (a bare-number last line keeps the whole dialogue in scope), because the verifier does not unfold the detector and the extractors over the literal dialogue (about 95 characters, five lines). So the script's literal outcome, peso 65 and edad 25, is not derived. `TestCompleto.EdadFromNextLine` and `TestCompleto.PesoSearch` state the extraction rules the outcome follows from.
- TestCompleto.ChangeOfFormula: Test 1's dialogue is stated by its last line with the earlier lines arbitrary. The empty parameter set of the literal dialogue is not derived.
- TestSeparacion.SeparationScenario: stated by the last line with the earlier lines arbitrary, like Test 1 above; `TestSeparacion.NothingExtractedAllMissing` gives the missing list once the parameters are empty. The empty parameter set the script prints for its literal dialogue is not derived.
- TestSexo.CompositionInProgressDetected: stated for any dialogue that opens with `user: composicion corporal` and ends with `user: M`. The script's own first dialogue (`prompt_problema`, whose printed outcome is "PROBLEMA PERSISTE", no formula detected) is not evaluated literally.
- Fallback.HandleChat: this is the corrected handler, which reads the unit from the match (see "Findings"). `Fallback.HandleChatAsWritten` is the handler as written, and `Fallback.SpacedHandlersAgree` and `Fallback.GluedKgReplies` say where the two agree and differ. The `response += …` steps are one string function (`Lines` lays out the same text), not a loop of appends.
- Resolver.FormulaResolver.ResolverFormula: the `async`/`await` of the hook is sequential here, and `throw` is an `Err` outcome. The registry must be ranked (acyclic), because the source has no cycle guard and a cyclic registry would not terminate.

## Findings

| source | as written | input that shows it | evidently intended | confidence | as-written member | corrected member |
|---|---|---|---|---|---|---|
| backend/main.py:172-173 | the query string is passed to `validate_food_input`, a validator of dicts; it either raises on `nombre["nombre"]` or returns a tuple that `validation["valid"]` then indexes with a string, so the `except` answers 500 | `nombre = "arroz"` with a table that holds arroz: answer 500 instead of the food | a name that passes the length guard is looked up | not executed | `Alimento.AsWrittenDiffers` | `Alimento.FoundAnswer` |
| backend/fallback_server.py:77-82 | the unit is taken as the second whitespace-separated word of the match, which is not the unit when number and unit are written together | "2kg de arroz, kcal": the word is "de", so 2 kg is read as 2 g | convert whenever the matched unit is kg | not executed | `Fallback.GluedKgReplies` | `Fallback.Grams` |
| backend/fallback_server.py:74-77 | a match with a single word makes `split()[1]` raise `IndexError`, and the handler answers 500 | "2kg  5 kcal": the match "2kg  " has one word | read the unit from the match itself | not executed | `Fallback.GluedSpacesReplies` | `Fallback.Grams` |
