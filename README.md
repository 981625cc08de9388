# DigLabApp batch-experiment page: a verified model of its input handling and session lifecycle

DigLabApp is a Streamlit dashboard for a simulated microbiology lab. A user
picks a host organism, a random seed and a lab-equipment investment,
initialises a lab and a host, configures a batch shake-flask fermentation
and runs it against the `silvio` simulation library. This project models
the parts of `app.py` that are logic rather than layout, and proves what
they promise:

- **Temperature parsing** (`temperatures.dfy`, on top of the Python string
  operations in `text.dfy`). The form's text is split on commas and each
  piece is stripped; blank pieces are dropped and the rest are read as
  integers. A single non-integer piece rejects the whole text.
- **Carbon-source candidates and exchange lookup** (`carbon.dfy`). Name
  matches and id-only matches are merged into one list without repetition,
  name matches first. The chosen metabolite's exchange reaction is the first
  exchange whose reaction text contains the metabolite id.
- **Result file name** (`result_file.dfy`). It is built from the date, the
  organism with its dots removed, and the initial OD with its dots turned
  into dashes.
- **Session lifecycle** (`session.dfy`). `st.session_state` is a map from
  the page's keys to values, kept in a `SessionState` class. The class has
  one method for each of the init block, the setup widgets, the Initialize
  button and the Reset button. Pure functions specify each transition, and
  lemmas relate them over whole sequences of user actions.
- **The settings object** (`settings.dfy`). `myExp` is an
  `ExperimentSettings` class whose fields are assigned one after another
  from the form.

`wrappers.dfy` holds the `Option` and `Result` types.

The foreign objects are modelled as follows:

- `DigLabSim(seed, investment, Budget)` is the value `Lab(seed, investment, budget)`.
- `create_host(organism)` is the value `HostOf(lab, organism)`.
- The metabolite queries and the model's exchange list are inputs.
- The `%y%m%d` date and `str(InitBiomass)` are input strings.

In these places the model follows what the code does:

- Reset clears only `ExpInit` and `exp`. The host stays in the session. The
  experiment history lives inside the `exp` object, so it goes with it.
- The exchange lookup takes the first matching exchange, not a unique one.
- When the temperature text is rejected, the field keeps the value it had
  before. On the settings object of the current rerun, that is the
  library's default, not a previous parse.

## Model

| member | source | states |
|---|---|---|
| `Text.TrimStart` | app.py:142 | lstrip: the result is a suffix of the input, everything removed is whitespace, and the result does not start with whitespace |
| `Text.TrimEnd` | app.py:142 | rstrip: the result is a prefix of the input, everything removed is whitespace, and the result does not end with whitespace |
| `Text.Strip` | app.py:142 | strip: the input is whitespace, then the result, then whitespace; the result has non-space ends; it is empty exactly when the input is all whitespace |
| `Text.PaddedBlank` | app.py:142 | text padded with whitespace around a result that starts with a non-space is blank exactly when the result is empty |
| `Text.StripPadded` | app.py:142 | inverse view of strip: a stripped text padded with any whitespace strips back to itself |
| `Text.Split` | app.py:142 | split(','): at least one part, and no part contains the separator |
| `Text.JoinSplit` | app.py:142 | joining the parts of a split with the separator gives the input back |
| `Text.SplitJoin` | app.py:142 | split inverts join on separator-free parts |
| `Text.SplitAppend` | app.py:142 | splitting `a + sep + b` gives the parts of `a` followed by the parts of `b` |
| `Text.SplitSingle` | app.py:142 | a text without the separator splits into itself alone |
| `Text.ContainsAt` | app.py:166 | Python's `pat in s` holds exactly when `pat` occurs at some position of `s` |
| `Text.Contains` | app.py:166 | Python's `pat in s`: true when `s` starts with `pat` or `pat` occurs in `s` past its first character (ContainsAt equates this with an occurrence at some index) |
| `Text.RemoveChar` | app.py:219 | replace('.', ''): no '.' remains, and the result is shorter by the number of '.' removed |
| `Text.RemoveCharMultiset` | app.py:219 | every character other than the removed one is kept with its multiplicity |
| `Text.RemoveCharAppend` | app.py:219 | deleting a character commutes with concatenation |
| `Text.RemoveCharAbsent` | app.py:219 | a text without the character is unchanged |
| `Text.ReplaceChar` | app.py:219 | replace('.', '-'): same length; each position holds '-' where the input had '.', and the input character elsewhere |
| `Temperatures.ParseDigits` | app.py:142 | a digit run yields a value exactly when it is non-empty and all ASCII digits |
| `Temperatures.ParseInt` | app.py:142 | int(token) succeeds exactly on an optional sign followed by digits; the sign of the value matches the text |
| `Temperatures.ParseDigitsValue` | app.py:142 | a digit run reads as its positional decimal value, so leading zeros count for nothing ("007" is 7) |
| `Temperatures.ParseIntValue` | app.py:142 | int(token) is the positional value of its digits, negated after "-" ("+30" and "030" are 30, "-0" is 0) |
| `Temperatures.LeadingZeroIgnored` | app.py:142 | a leading "0" does not change the value read |
| `Temperatures.ParseShow` | app.py:142 | int(str(n)) == n for every integer, with no limit on the number of digits |
| `Temperatures.NonBlankAppend` | app.py:142 | stripping pieces and dropping blanks commutes with concatenation |
| `Temperatures.TokensAppend` | app.py:142 | the tokens of `a + "," + b` are those of `a` followed by those of `b` |
| `Temperatures.TokensSingle` | app.py:142 | a comma-free text yields its stripped self as the only token, or nothing when blank |
| `Temperatures.Tokens` | app.py:142 | the stripped, non-blank comma-separated pieces, in order |
| `Temperatures.ParseAll` | app.py:142 | succeeds exactly when every token is an integer, with one value per token in order; on failure it returns a token that is not an integer |
| `Temperatures.ParseAllCons` | app.py:142 | an integer token in front of tokens that read cleanly adds its value in front of their values |
| `Temperatures.ParseTemperatures` | app.py:140-144 | the list is the integers of the non-blank stripped comma-separated pieces, in order; any non-integer piece makes it fail as a whole |
| `Temperatures.BlankPieceIgnored` | app.py:142 | a blank piece between two commas is dropped ("25, 30,,37" reads like "25, 30,37") |
| `Temperatures.BlankPieceTokens` | app.py:142 | a blank piece between two commas contributes no token |
| `Temperatures.BadPieceRejects` | app.py:141-144 | one non-blank, non-integer piece at any position (first, last or inner) rejects the whole text, so there is no partial list |
| `Temperatures.NonBlankContains` | app.py:142 | every non-blank piece is among the kept pieces, stripped |
| `Temperatures.RenderRoundTrip` | app.py:142 | integers joined by "," with any whitespace around each one, chosen per integer (as in "25, 30,37"), parse back to the same list |
| `CarbonSource.Dedup` | app.py:159-160 | `list(set(q))`: each element of the query result exactly once |
| `CarbonSource.Without` | app.py:161 | `Fil2 - Fil1`: exactly the elements of the first list that are not in the second |
| `CarbonSource.Candidates` | app.py:159-162 | every name or id match exactly once, nothing else, and no id-only match before a name match |
| `CarbonSource.BlocksApart` | app.py:162 | two repetition-free blocks, one inside the name matches and one outside, concatenate without repetition and with every name match first |
| `CarbonSource.CandidatesCount` | app.py:159-162 | the candidate list is as long as the union of the two match sets |
| `CarbonSource.ExchangesFor` | app.py:166 | the exchanges kept are exactly those whose reaction text contains the metabolite id |
| `CarbonSource.FirstExchange` | app.py:166-170 | the list is empty exactly when no exchange mentions the id; otherwise its head is the first exchange in model order that does |
| `ResultFile.ResultFileName` | app.py:219 | the path starts with "Data/" and ends with "_ShakeFlask.xlsx" |
| `ResultFile.OnlyExtensionDot` | app.py:219 | with a dot-free date, the extension's dot is the only '.' in the path |
| `ResultFile.OrganismDotsDropped` | app.py:219 | dots in the organism name never reach the path |
| `ResultFile.OdDotsDashed` | app.py:219 | the OD text's dots are all written as dashes |
| `Session.InitStore` | app.py:20-37 | date rewritten; every other key is created as None only when absent, so no existing value is overwritten |
| `Session.InitBlock` | app.py:20-37 | the eight conditional assignments, one after another, compute `InitStore` |
| `Session.InitStoreIdempotent` | app.py:20-37 | a second rerun changes nothing but the date |
| `Session.SetupStore` | app.py:52-59 | the setup widgets overwrite organism, seed, currency and investment, and nothing else |
| `Session.InitializeStore` | app.py:77-83 | Initialize stores a lab built from the stored seed, the investment and the budget, plus a host of the stored organism made by that lab; it sets ExpInit to True and leaves the other keys alone |
| `Session.ResetStore` | app.py:240-242 | Reset sets ExpInit and exp to None and leaves every other key, the host included, unchanged |
| `Session.BatchView` | app.py:233-237 | the batch form appears exactly when Batch is selected and a lab exists; the "initialize first" warning appears exactly when no lab exists; otherwise the hint |
| `Session.ResetBlocksBatch` | app.py:240-242 | after Reset, and on the next rerun, the batch form is withheld and the warning is shown whatever is selected |
| `Session.InitializeEnablesBatch` | app.py:77-83 | after Initialize the next rerun offers the batch form |
| `Session.StepLifecycle` | app.py:240-242 | one action: Initialize sets the lab, the flag and the host; Reset clears the lab and the flag but not the host; every other action leaves all three as they were |
| `Session.Lifecycle` | app.py:240-242 | over any sequence of reruns, setups, Initializes and Resets from a fresh session: the lab and ExpInit are set exactly when an Initialize follows the last Reset, and the host is set exactly when any Initialize happened |
| `Session.SessionState.constructor` | app.py:20-37 | the first page load runs the init block on an empty store |
| `Session.SessionState.Rerun` | app.py:20-37 | the init block as eight conditional assignments equals `InitStore` of the old store and keeps the widget ranges |
| `Session.SessionState.SetDefault` | app.py:21-22 | sets a key to None when it is absent |
| `Session.SessionState.Setup` | app.py:52-59 | the new store is `SetupStore` of the old one; the widget ranges hold |
| `Session.SessionState.Initialize` | app.py:77-83 | the new store is `InitializeStore` of the old one |
| `Session.SessionState.Reset` | app.py:240-242 | the new store is `ResetStore` of the old one |
| `Session.SessionState.ExperimentSection` | app.py:127 | the batch form exactly when Batch is selected and exp is not None; the warning exactly when exp is None; in all cases the section `BatchView` gives for the current store |
| `Settings.ExperimentSettings.constructor` | app.py:128-130 | a new settings object of type Batch for the stored organism, with no other field assigned |
| `Settings.ExperimentSettings.SetTemperatures` | app.py:140-144 | the whole parsed list is stored; otherwise an error is reported and the field is unchanged; no other field changes |
| `Settings.ExperimentSettings.SelectCarbonSource` | app.py:166-172 | a warning is raised exactly when no exchange mentions the id, and then nothing changes; otherwise CarbonID is the id of the first such exchange and CarbonName is the metabolite's name |
| `Settings.ExperimentSettings.SetResultsPath` | app.py:219 | Results is the result file name of the date, organism and OD text |
| `Settings.OpenExperimentSection` | app.py:127-130 | a fresh settings object is made exactly when the batch form is shown; its type is Batch, it carries the stored organism, and its other fields are unassigned |

## Left out

- Page rendering is not modelled: widgets, columns, the image, markdown, success and warning display, and the download button. The values the widgets return are inputs.
- The `silvio` and cobra calls are not modelled, because their code is not part of this model. These are `DigLabSim`, `create_host`, `slim_optimize`, `make_generator`/`pick_uniform`, `set_resetCarbonExchanges`, `optimize_ReportExchanges`, `measure_TemperatureGrowth` and `record_experiment`.
- Because of that, the model does not cover the model-functional check (line 101), the "Run Simulation" branch (lines 207-232) apart from the result file name, or the experiment-details panel (lines 92-117).
- The metabolite queries (lines 159-160) are inputs. cobra's `query` matches a regular expression, and that library is not part of this model.
- File writing and reading (lines 222-230) are I/O.
- Floating-point code is not modelled: the concentration unit factor and its rounding (lines 176-185), the yield, biomass and capacity figures (lines 212-216), and the rounding of the initial OD number input to three places (line 146). The OD reaches the model only as the input text `str(InitBiomass)`. The M-to-mM factor `1/1000` looks inverted, but it is float code.
- The volume, cultivation-time and sampling-interval sliders (lines 147-151) and the experiment id box (line 205) assign widget values directly and hold no logic. The `set_SamplingVector` call (line 152) belongs to the library.
- `Variables.py` (`Budget`, `SFlask_VarNames`) is not part of this model. The budget is a parameter of `SessionState`.
- Date and float formatting (`strftime`, `str(InitBiomass)`) are taken as input strings.
- The selectbox choice of a metabolite from the candidate list is an input. The model does not cover the paths where the source raises: an empty candidate list (`sub_sel` is None at line 166), or an empty filter, which leaves `sub_sel` unbound at line 177.
- `CarbonSource.Candidates`: Python's set iteration order is unspecified. The function uses first-occurrence order, which is one order Python may produce. Its contract states only membership, distinctness and the block order, which hold for every order.
- `Temperatures.ParseInt`: accepts only an optional `+`/`-` sign followed by ASCII digits. Python's `int()` also accepts digit-group underscores and non-ASCII digits.
- `Temperatures.ParseInt`: accepts digit runs of any length. CPython 3.11 and later, and the 2022 security releases of 3.7-3.10, raise `ValueError` on more than 4300 digits by default. The source catches that error (lines 142-144) and leaves the temperature unassigned. The model does not reproduce that interpreter setting, so `ParseIntValue`, `ParseShow` and `RenderRoundTrip` also cover longer numbers, where `str(n)` and `int` would raise.
- `Text.Strip`: whitespace is the ASCII subset of Python's `str.isspace`: characters 9-13, 28-31 and space. Unicode whitespace is not modelled.
- The commented-out FBA block (lines 188-202) is dead code.
