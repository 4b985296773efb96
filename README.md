# AI Hallucination Playground backend: a Dafny model

This project models the two backend files of the AI Hallucination Playground:

- the **DNA fingerprint engine** (`backend/dna_utils.py`, module `DnaUtils` in `dna_utils.dfy`). A DNA is a 64-character hexadecimal string. The engine validates DNAs, crosses two of them over (`remix_dna`), mutates one under a random source (`mutate_dna`), measures the compatibility of two (`analyze_dna_compatibility`) and guesses generation parameters from one (`decode_dna`);
- the **deterministic rules of the Flask server** (`backend/trip_server.py`, module `TripServer` in `trip_server.dfy`). These are the get-or-create of a user row, the usage counters a successful `/trip` bumps, the `/trip` flow around the model runner, the request checks of `/voice`, `/user/stats` and `/history`, the choice of a speech voice, the normalisation of history rows, and the splitting of community tags.

`results.dfy` holds the `Option` and `Result` types both modules use.

In the server model, the SQLite `users` table becomes a map from user id to row, and the `generations` table becomes a sequence of rows in insertion order. Both are fields of the class `Database`, and the handlers that write them are its methods. The outside world is passed in as parameters:
- the answer of the model runner (Ollama);
- the speech synthesiser's outcome;
- the fingerprint `generate_dna` produced;
- the fresh uuid;
- the clock.

`mutate_dna`'s randomness is also a parameter: one roll in [0, 1) and one pick in `0123456789abcdef` per position. The roll stands for `random.random()` and the pick for `random.choice`.

Two notes on the numbers:
- The similarity of `analyze_dna_compatibility` is `(64 - d) / 64 * 100`. This is a multiple of 1/16 no larger than 100, so the double-precision computation is exact, and the model computes it as a real. Its thresholds, restated over the integer distance `d`, are: above 70 iff `d <= 19`, above 50 iff `d <= 31`, above 40 iff `d <= 38`.
- `decode_dna` returns `round(0.1 + k * 0.1, 1)`. That is the double nearest the decimal `(k + 1) / 10`, and the model gives that decimal as a real.

## Model

| member | source | states |
|---|---|---|
| `DnaUtils.AllHex` | backend/dna_utils.py:77-82 | true iff every character is a hexadecimal digit (0-9, a-f, A-F) |
| `DnaUtils.ValidateDna` | backend/dna_utils.py:67-82 | true iff the string has exactly 64 characters and all of them are hexadecimal digits (the check the comment at line 77 describes; see Findings) |
| `DnaUtils.ValidateDnaAsWritten` | backend/dna_utils.py:74-82 | the check as written, i.e. length 64 and `int(dna, 16)` succeeds (whitespace, sign, `0x` prefix, single underscores); anything it accepts has length 64 |
| `DnaUtils.ValidDnaPassesAsWritten` | backend/dna_utils.py:74-82 | every DNA the corrected check accepts, the written check accepts too |
| `DnaUtils.RemixEscapesValidationAsWritten` | backend/dna_utils.py:79-95 | the written check accepts `"0x"` followed by 62 zeros, and a remix of two accepted DNAs can then be a string that the written check rejects |
| `DnaUtils.EffectiveCrossover` | backend/dna_utils.py:91-92 | the point used always lies in [1, 63]; a point in that range is kept and any other becomes 32 |
| `DnaUtils.Splice` | backend/dna_utils.py:95 | the first k characters come from the first DNA, the rest from the second, and the length is that of the second |
| `DnaUtils.RemixDna` | backend/dna_utils.py:84-97 | fails with InvalidDnaFormat iff either input is invalid (the empty string included); otherwise returns a valid DNA that is the splice at the effective point; the default point is 32 |
| `DnaUtils.RemixWithSelf` | backend/dna_utils.py:88-97 | remixing a valid DNA with itself returns it, at any point |
| `DnaUtils.RemixBetweenParents` | backend/dna_utils.py:95 | a remix's distance to one parent plus its distance to the other equals the parents' distance |
| `DnaUtils.Mutated` | backend/dna_utils.py:108-115 | the mutated DNA has the input's length; positions whose roll is below the rate hold a character of `0123456789abcdef`, the other positions keep the input's character; a valid input gives a valid output |
| `DnaUtils.MutateDna` | backend/dna_utils.py:99-115 | fails with InvalidDnaFormat iff the input is invalid; otherwise the buffer loop returns exactly `Mutated` of the input and the draws, which is valid DNA |
| `DnaUtils.MutateAtZeroRate` | backend/dna_utils.py:111-113 | a rate of 0 or less leaves the DNA unchanged |
| `DnaUtils.MutateAtFullRate` | backend/dna_utils.py:111-113 | a rate of 1 or more replaces every position with its drawn character |
| `DnaUtils.MutationDistance` | backend/dna_utils.py:111-113 | a mutated DNA differs from its input in at most as many positions as there were rolls below the rate |
| `DnaUtils.Hamming` | backend/dna_utils.py:141 | the number of differing positions is at most the length, and is 0 iff the strings are equal |
| `DnaUtils.HammingSymmetric` | backend/dna_utils.py:141 | the distance does not depend on argument order |
| `DnaUtils.SimilarityPercentage` | backend/dna_utils.py:142 | similarity lies in [0, 100] |
| `DnaUtils.AnalyzeDnaCompatibility` | backend/dna_utils.py:133-164 | errors iff either DNA is invalid; otherwise `differences` is the Hamming distance (in [0, 64], 0 iff equal); recommended crossover is 32 iff d <= 31, else 16; compatibility is High iff d <= 19, Medium iff 20 <= d <= 38, Low iff d >= 39 |
| `DnaUtils.AnalysisSymmetric` | backend/dna_utils.py:141-163 | swapping the two DNAs gives the same distance and compatibility |
| `DnaUtils.RecommendedCrossoverIsKept` | backend/dna_utils.py:91-92 | the crossover the analysis recommends is used by remix unchanged |
| `DnaUtils.PatternsCoverHex` | backend/dna_utils.py:145-149 | on hex strings, vowels plus consonants plus numbers plus upper-case A-F equals the length: the three counts miss exactly the upper-case letters |
| `DnaUtils.ModelFor` | backend/dna_utils.py:51-57 | the model differs from dolphin-phi iff the first character is 1, 2 or 3 |
| `DnaUtils.DecodeDna` | backend/dna_utils.py:32-65 | fails (IndexError) iff the DNA is empty; otherwise the model is chosen by the first character, temperature is (char_sum mod 20 + 1)/10 in [0.1, 2.0], top_p is (char_sum mod 9 + 1)/10 in [0.1, 0.9], and the DNA is echoed |
| `DnaUtils.CharSumMultiset` | backend/dna_utils.py:42 | two strings with the same characters, in any order, have the same character sum |
| `DnaUtils.DecodeIgnoresOrder` | backend/dna_utils.py:42-57 | two DNAs with the same first character whose remaining characters are a reordering of each other (same multiset) decode to the same temperature, top_p and model |
| `TripServer.NewUser` | backend/trip_server.py:159-162 | a created user has daily, monthly and total usage 0, no username, the default favourite model and today's reset date |
| `TripServer.WithUser` | backend/trip_server.py:155-166 | after get-or-create the id is present, every existing row is unchanged, and a new id gets the zero-usage row |
| `TripServer.WithUserIdempotent` | backend/trip_server.py:155-166 | a second get-or-create changes nothing |
| `TripServer.Bumped` | backend/trip_server.py:461-465 | daily, monthly and total usage each rise by exactly 1, and the other columns are unchanged |
| `TripServer.WithUsageIncremented` | backend/trip_server.py:461-465 | the row of that user id, if present, becomes `Bumped` of itself (daily, monthly and total usage each one higher, other columns kept); no other user changes and no row is added |
| `TripServer.FirstGenerationCountsOne` | backend/trip_server.py:390-465 | a new user's first successful generation leaves all three counters at 1 |
| `TripServer.StatsFrom` | backend/trip_server.py:237-247 | both limits report -1; the counters are copied from the row, or are 0 when no row was found |
| `TripServer.Truncate` | backend/trip_server.py:285 | `s[:n]` is the prefix of s of length exactly n when s is longer, and all of s otherwise |
| `TripServer.ParamsViewOf` | backend/trip_server.py:279-282 | empty parameters become {}, parsed ones are passed through, unparseable ones become the fixed default record |
| `TripServer.NormalizeRow` | backend/trip_server.py:278-292 | the prompt is the stored prompt's first 100 characters (all of it when shorter); missing prompt, output, dna, model and timestamp become ""; a missing time becomes 0; parameters as `ParamsViewOf` |
| `TripServer.NewestIndices` | backend/trip_server.py:269-275 | the positions of the user's rows: each such position exactly once, only such positions, in strictly decreasing (newest first) order |
| `TripServer.NewestFirst` | backend/trip_server.py:269-274 | the k-th row returned is the table row at the k-th of `NewestIndices`: every row of the user, newest first |
| `TripServer.HistoryQuery` | backend/trip_server.py:269-275 | the user's rows newest first, cut to the 50 newest: as many rows as the user has up to 50, the k-th being the table row at the k-th of `NewestIndices` |
| `TripServer.NewRowLeadsHistory` | backend/trip_server.py:269-275 | a row just inserted is the first row of its user's history |
| `TripServer.OtherUsersRowsInvisible` | backend/trip_server.py:269-275 | inserting another user's row leaves a history unchanged |
| `TripServer.SelectVoice` | backend/trip_server.py:178-186 | the voice is always one of the map's voices; a known code gets its voice, an unknown code gets the pt-BR voice |
| `TripServer.VoiceFallbackExact` | backend/trip_server.py:178-186 | a code gets the pt-BR voice iff it is "pt-BR" or unknown |
| `TripServer.CheckVoiceRequest` | backend/trip_server.py:491-505 | checks run in order, each answering 400: a missing user id, then empty text, then text over 1000 characters; a request passes iff it has an id and 1 to 1000 characters of text; the language defaults to pt-BR |
| `TripServer.Voice` | backend/trip_server.py:487-515 | a failed check is returned as is; otherwise the synthesised audio, or a 500 reply when synthesis raised |
| `TripServer.PayloadMatchesStoredRow` | backend/trip_server.py:393-403 | the stored row records the model, persona, temperature and top_p the runner was sent, and its prompt equals the sent prompt iff the request had one (otherwise "Hello" is sent and "" stored) |
| `TripServer.OllamaText` | backend/trip_server.py:408-418 | the call succeeds iff the runner answered 200, with the answer's `response` or "No response from AI"; every failure is a 500 reply |
| `TripServer.GenerationFor` | backend/trip_server.py:447-458 | the stored row holds the request's prompt (default ""), the output, the DNA, the parameters with their defaults, and the model |
| `TripServer.ReplyVoice` | backend/trip_server.py:429-437 | the reply has audio iff voice was requested and synthesis gave a non-empty result |
| `TripServer.Database.constructor` | backend/trip_server.py:48-78 | the database starts with no users and no generations |
| `TripServer.Database.GetOrCreateUser` | backend/trip_server.py:151-170 | the users table becomes `WithUser` of the old one, and the returned row is the user's row (the old one if it existed) |
| `TripServer.Database.IncrementUsage` | backend/trip_server.py:461-465 | the users table becomes `WithUsageIncremented` of the old one |
| `TripServer.Database.Trip` | backend/trip_server.py:380-481 | the user is created first; the runner is given `PayloadFor` of the request; on a failed model call the reply is that call's 500 error and only the user creation remains; on success one generation row is appended, that user's three counters rise by 1, and the reply carries output, DNA, user id, time and optional voice |
| `TripServer.Database.GetUserStats` | backend/trip_server.py:222-254 | a missing user id gives 400 with the tables unchanged; otherwise the user is created if new and the reply holds that user's counters with both limits -1 |
| `TripServer.NormalizeRows` | backend/trip_server.py:277-292 | the loop gives one entry per row, the i-th being `NormalizeRow` of the i-th row |
| `TripServer.Database.GetHistory` | backend/trip_server.py:260-295 | a missing user id gives 400; otherwise one normalised entry per row of the user's history query, in the same order, at most 50 |
| `TripServer.TripLeadsHistory` | backend/trip_server.py:454-458 | after a successful generation the user's history starts with that generation's output and DNA |
| `TripServer.Split` | backend/trip_server.py:319 | `split(',')` gives at least one part, and no part contains the separator |
| `TripServer.JoinSplit` | backend/trip_server.py:319 | joining the parts of a split with the separator gives back the string |
| `TripServer.SplitJoin` | backend/trip_server.py:319 | splitting a join of one or more separator-free parts gives back the parts |
| `TripServer.SplitTags` | backend/trip_server.py:319 | null or empty tags give []; otherwise a non-empty list of comma-free tags; joining the list with ',' gives back the stored string |
| `TripServer.PromptOf` | backend/trip_server.py:315-324 | the tags are split, `is_featured` is true iff the column is a non-zero value, and the other columns are copied |
| `TripServer.GetCommunityPrompts` | backend/trip_server.py:313-324 | one prompt per fetched row, in the same order, each `PromptOf` its row |

## Findings

| source | as written | input that shows it | evidently intended | confidence | as-written member | corrected member |
|---|---|---|---|---|---|---|
| backend/dna_utils.py:77-82 | `int(dna, 16)` accepts surrounding whitespace, a sign, a `0x` prefix and single underscores, so `validate_dna` accepts 64-character strings that are not all hexadecimal | `"0x"` followed by 62 zeros passes; remixing 64 `f`s with it at point 1 returns `"fx"` followed by 62 zeros, which `validate_dna` rejects | every one of the 64 characters is a hexadecimal digit, as the comment at line 77 says, so a remix or mutation of valid DNA is valid DNA | high (not executed) | `DnaUtils.RemixEscapesValidationAsWritten` | `DnaUtils.ValidateDna` |

The rest of the model uses the corrected `ValidateDna`. This is what lets `RemixDna` and `MutateDna` promise a valid result.

## Left out

- `ValidateDnaAsWritten`: CPython's `int()` also accepts non-ASCII decimal digits (such as Arabic-Indic digits), which it maps to ASCII first. The model rejects them, so it accepts slightly less than the source.
- The `isinstance(dna, str)` test of `validate_dna`: in the typed model every argument is a string.
- `generate_dna` (both versions) and `generate_persona_dna`: they are SHA-256 hashes, and the server's version also reads the clock. The fingerprint a `/trip` stores is a parameter of `Database.Trip`.
- `round(similarity, 2)` in `analyze_dna_compatibility`: the model keeps the exact similarity.
- Python's `int` and SQLite's 64-bit integers are unbounded in the model. The counters cannot realistically overflow.
- `mutate_dna`'s random source: the model takes one roll and one pick per position. The source calls `random.choice` only at positions whose roll is below the rate, so the picks stand for those calls in order.
- SQL: the model takes the history query's `ORDER BY created_at DESC` to be reverse insertion order. Rows inserted within the same second may come back in another order in SQLite. The community query's `ORDER BY is_featured DESC, likes DESC LIMIT 20` is not modelled: `GetCommunityPrompts` takes the fetched rows as given.
- The surrogate `id` and `created_at` columns of `users` are not modelled. No handler reads them.
- Table creation, sample community prompts and sponsors, `/sponsors`, `/analytics`, `/health`, `/share/prompt`, `/recreate` and the placeholder `decode_dna` of the server. These are seed data, read-only reports or constant replies outside the modelled rules.
- Flask routing, CORS and JSON (de)serialisation. Requests are records whose missing keys are None. JSON `null`, values of the wrong type, and the `float()` conversion errors they cause are not modelled; nor is the catch-all `except Exception` that turns them into a 500 reply.
- The HTTP call to the model runner, with its 60-second timeout. The runner is a function parameter of `Database.Trip`, from the payload posted to the outcome.
- Speech synthesis: edge-tts, the asyncio event loop, temporary files and base64 encoding. The synthesiser's outcome is a parameter. The model records which voice `/voice` would ask for (`VoiceJob`), but not the voice `/trip` asks for.
- Concurrency: each handler is modelled as atomic. In the threaded development server two first requests for the same new user id can both miss the SELECT of `get_or_create_user`; the losing INSERT then fails the `UNIQUE` constraint on `user_id` and that request answers 500, so a `/trip` records no generation and no usage. `Database.GetOrCreateUser` and `Database.Trip` cannot fail this way.
- Logging with `print`.
- The TypeScript client (favourites store, batch generation, identity store) is not part of this model.
