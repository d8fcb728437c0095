# batchmail server actions — a Dafny model

This project models the server side of a batch mailer. An operator uploads a
spreadsheet of rows and a message template. The server sends one
personalised e-mail per row that has a recipient, and reports one entry per
row. The parts modelled are these:

- **The batch dispatch** (`sendBatchAction`). It checks the request and
  resolves the sender for the requested system variant. It keeps only the
  rows with a recipient, in their order. For each row it renders the body
  and subject, picks the attachments by normalised name and sends the
  message. The self-hosted variants (`cyberph`, `cyberph-noreply`) get one
  retry on the alternate port. Every row but the last is followed by a
  jittered pause.
- **The sender-profile store** (`lib/envStore.ts`). It holds the profiles
  uploaded at run time, the profile in use and the system variant, which
  selects the environment variables that supply the sender.
- **The settings actions**:
  - the `.env` text parser;
  - upload of a profile;
  - the report of which sender settings are present and where they come from;
  - the variant switch;
  - clearing all profiles.
- **The administrator login decision and logout.**

Modules:

| file | module | what it holds |
|---|---|---|
| `js_strings.dfy` | `JsStrings` | `trim`, ASCII `toLowerCase`, `indexOf`, `lastIndexOf` and `split(/\r?\n/)` on strings as sequences of characters |
| `js_values.dfy` | `JsValues` | `undefined` as `Option`, truthiness, `a \|\| b`, and `Number(...)` on the port settings |
| `collections.dfy` | `Collections` | `Array.prototype.filter` (`Keep`) and the fact that it keeps order; `Flatten`, which puts groups end to end |
| `env_store.dfy` | `EnvStore` | the variant → settings selector and the `Store` class |
| `env_actions.dfy` | `EnvActions` | `parseEnv`, `uploadEnvAction`, `getEnvStatusAction`, `clearEnvAction`, `setVariantAction` |
| `send_action.dfy` | `SendAction` | `renderTemplate`, the sender and routes, `sendWithFallback`, one row, the pauses, `sendBatchAction` |
| `auth_action.dfy` | `AuthAction` | `loginAction` and `logoutAction` |

The model does not see the template engine, the name normaliser, the mail
transport or `Math.random()`. They are parameters (`SendAction.Engine`):

- `render` returns `None` where `renderString` throws;
- `transport` answers each `Attempt`, which records the row, whether this is
  the first try or the retry, the route, the login and the message;
- `random(i)` is the draw for the i-th pause.

A batch's transport calls are kept as one group per row, in row order;
the order the transport receives them in is `Collections.Flatten` of the groups.

The process environment is an immutable map (`EnvStore.Env`). The login
token, the cookie lifetime and the cookie's secure flag are also parameters.

Three behaviours of the code that a reader might not expect, all of which
the model keeps:

- A `delayMs` that is zero or negative becomes 2000 ms, so a pause follows
  every row but the last. It does not turn the pauses off.
- When the retry on the alternate port also fails, the item reports the
  retry's error, not the first one.
- The retry happens when `Number(PORT_ALT)` is finite. An empty `PORT_ALT`
  counts, because it reads as 0.

## Model

| member | source | states |
|---|---|---|
| JsStrings.LeadingSpaces | app/actions/env.ts:36 | the count of leading characters is the longest run of white space the string starts with |
| JsStrings.TrailingStart | app/actions/env.ts:36 | the trailing cut point starts the longest run of white space the string ends with |
| JsStrings.Trim | app/actions/env.ts:36 | the trimmed string has no white space at either end, and everything removed on either side is white space |
| JsStrings.TrimAt | app/actions/env.ts:36 | the trimmed string is the contiguous piece of the input that follows its leading white space |
| JsStrings.TrimKeeps | app/actions/env.ts:40 | every character of the trimmed string occurs in the original |
| JsStrings.TrimOfTrimmed | app/actions/auth.ts:22-23 | a string without white space at its ends is its own trim |
| JsStrings.TrimIdempotent | app/actions/auth.ts:42 | trimming the already trimmed administrator email again changes nothing |
| JsStrings.Lower | app/actions/auth.ts:41 | lower-casing keeps the length and maps each character through ASCII lower-case |
| JsStrings.LowerIdempotent | app/actions/env.ts:128 | lower-casing twice is lower-casing once |
| JsStrings.LowerTrimStart | app/actions/auth.ts:41 | lower-casing commutes with removing leading white space |
| JsStrings.LowerTrimEnd | app/actions/auth.ts:41 | lower-casing commutes with removing trailing white space |
| JsStrings.LowerTrim | app/actions/auth.ts:41-42 | lower-casing and trimming commute, so the order of the two email normalisations does not matter |
| JsStrings.IndexOf | app/actions/env.ts:38 | -1 exactly when the character is absent, else its first position |
| JsStrings.IndexOfAfter | app/actions/env.ts:38 | in a string made of a part without the character, the character, and anything else, the first position is right after that part |
| JsStrings.TrimPadded | app/actions/env.ts:36 | white space added on either side of a trimmed non-empty string is cut away again |
| JsStrings.LastIndexOf | app/actions/env.ts:92 | -1 exactly when the character is absent, else its last position |
| JsStrings.SplitLines | app/actions/env.ts:35 | at least one line, and no line contains a line feed |
| JsStrings.SplitCrLf | app/actions/env.ts:35 | a line followed by `\r\n` splits off without its carriage return |
| JsStrings.SplitJoinLines | app/actions/env.ts:35 | splitting lines joined by line feeds gives them back, when no line holds a line feed and no line but the last ends in a carriage return |
| JsValues.Or | app/actions/send.ts:93-96 | `a \|\| b` is the first operand when that is truthy and the second otherwise, and it is truthy exactly when one of them is |
| JsValues.Decimal | app/actions/send.ts:111 | the decimal spelling of a number is a non-empty string of digits |
| JsValues.DecimalValue | app/actions/send.ts:111 | reading a decimal spelling gives the number back |
| JsValues.NumberOf | app/actions/send.ts:116 | an absent setting reads as NaN, a blank one as 0, and only a present setting reads as finite |
| JsValues.NumberOfDecimal | app/actions/send.ts:111 | a port written in decimal, with white space around it, reads as that port |
| JsValues.TrimmedDecimal | app/actions/send.ts:111 | a decimal port with white space around it trims back to the numeral |
| Collections.Keep | app/actions/send.ts:129 | the filter keeps exactly the elements that pass and never grows |
| Collections.KeepPositions | app/actions/send.ts:129 | the filter's result is the subsequence of the input at ascending positions, covering every passing element, so the original order is kept |
| Collections.KeepDistinct | lib/envStore.ts:110-112 | removing a name from a list without repetitions leaves one without repetitions |
| EnvStore.VariantNamed | lib/envStore.ts:16-22 | a name denotes a variant exactly when it is that variant's name |
| EnvStore.ResolveVariant | app/actions/send.ts:87-91 | a requested system-variant name is used, and anything else, an empty or absent name included, falls back to the store's variant |
| EnvStore.EnvForVariant | lib/envStore.ts:66-98 | only the self-hosted variants have a host or ports |
| EnvStore.EnvForVariantReadsOwnKeys | lib/envStore.ts:66-98 | a variant's settings depend only on the environment variables with its own prefix |
| EnvStore.VariantKeysDisjoint | lib/envStore.ts:66-98 | variants with different prefixes read disjoint environment variables |
| EnvStore.InitialVariant | lib/envStore.ts:24-30 | the store starts as "cyberph" exactly when the four self-hosted settings are all set, else as "default" |
| EnvStore.InsertionKeepsListed | lib/envStore.ts:32-37 | storing under a new non-empty trimmed name and appending it to the listing, or overwriting a listed name in place, keeps every stored name listed exactly once |
| EnvStore.RemovalKeepsListed | lib/envStore.ts:109-112 | deleting a name and filtering it out of the listing keeps every remaining name listed exactly once |
| EnvStore.Store.constructor | lib/envStore.ts:14-30 | the store starts with no profiles, no active profile and the initial variant, and satisfies its invariant |
| EnvStore.Store.SetProfile | lib/envStore.ts:32-37 | a blank name changes nothing; otherwise the values are stored under the trimmed name, which becomes active and is listed once; the invariant is kept |
| EnvStore.Store.ListProfiles | lib/envStore.ts:39-41 | the listed names are exactly the stored ones, each once |
| EnvStore.Store.GetProfile | lib/envStore.ts:43-45 | a stored name yields its profile, any other yields nothing |
| EnvStore.Store.SetActiveProfile | lib/envStore.ts:47-53 | no name or a blank one clears the active profile, a stored name becomes active, an unknown name changes nothing; profiles are untouched |
| EnvStore.Store.GetActiveProfileName | lib/envStore.ts:55-57 | the active name, when there is one, is a stored, non-empty name |
| EnvStore.Store.GetSystemVariant | lib/envStore.ts:59-61 | the variant read is the store's current one, which `SetSystemVariant` writes |
| EnvStore.Store.SetSystemVariant | lib/envStore.ts:59-64 | reading the variant back gives the one set; profiles are untouched |
| EnvStore.Store.GetActiveEnv | lib/envStore.ts:100-107 | the active profile's settings when one is active, else the current variant's environment settings |
| EnvStore.Store.SettingsFor | app/actions/send.ts:92 | for "default", the active profile's settings when one is active, else the store variant's environment settings; for any other variant, that variant's own environment settings |
| EnvStore.Store.ClearProfile | lib/envStore.ts:109-114 | the name is removed and the others keep their order; if it was active, the first remaining profile becomes active, or none; the invariant is kept |
| EnvStore.Store.ClearAllProfiles | lib/envStore.ts:116-119 | no profiles and no active profile remain; the variant is kept |
| EnvActions.KeysFilteredInOrder | app/actions/env.ts:57 | filtering the key list keeps the keys in list order |
| EnvActions.ParseLine | app/actions/env.ts:36-42 | blank, comment and `=`-less lines yield nothing; a yielded key is non-empty, trimmed and free of `=`, and its value is trimmed |
| EnvActions.ParseLineRoundTrip | app/actions/env.ts:38-42 | a line `key=value` with a well-formed key and a trimmed value reads back as that key and value, even when the value holds `=` |
| EnvActions.ParseLinePadded | app/actions/env.ts:36-42 | a `key = value` line with white space around the line and around its `=` reads back as the bare key and value |
| EnvActions.ParseLines | app/actions/env.ts:35 | each line is parsed on its own, one result per line |
| EnvActions.HoldsStep | app/actions/env.ts:42 | one more line overrides the value of the key it binds and leaves the other keys alone |
| EnvActions.LastValueComesFromLastDefinition | app/actions/env.ts:35-44 | a key's value comes from a line that binds it, and no later line binds it again |
| EnvActions.LastDefinitionWins | app/actions/env.ts:42 | the last line that binds a key decides its value |
| EnvActions.UnboundKeyHasNoValue | app/actions/env.ts:35-44 | a key no line binds is absent from the result |
| EnvActions.ParseEnv | app/actions/env.ts:33-45 | the result holds exactly the keys some line binds, each with the value of the last line binding it |
| EnvActions.ParsedKeysWellFormed | app/actions/env.ts:40-42 | every parsed key is non-empty, trimmed and free of `=`, and every value is trimmed |
| EnvActions.ExtractKnown | app/actions/env.ts:107-112 | the kept settings are exactly the known keys with non-empty parsed values; the missing ones are the rest, in key order |
| EnvActions.StoredEnv | app/actions/env.ts:107-111 | each kept setting is stored with its value, every other sender setting is unset, and there is no host or ports |
| EnvActions.ProfileFromFileName | app/actions/env.ts:91-93 | an empty file name gives "custom"; a name whose last dot is missing or is its first character is kept whole; otherwise the result is the non-empty part before the last dot |
| EnvActions.ProfileFromFileNameStripsExtension | app/actions/env.ts:91-93 | `base.ext` yields `base` |
| EnvActions.UploadText | app/actions/env.ts:81-98 | the text is the given text or the uploaded file's text; without either it is empty |
| EnvActions.UploadProfile | app/actions/env.ts:84-100 | text input uses its non-empty profile, else "custom"; a form uses its non-empty profile field, else the name derived from its file, else the empty name |
| EnvActions.UploadEnv | app/actions/env.ts:80-119 | blank text is refused and stores nothing; otherwise the known non-empty settings of the text are stored under the trimmed profile name, made active, listed at the end when new and in place when not, and reported with the missing ones, ok exactly when none is missing; a blank profile name changes no profile, listing or active name |
| EnvActions.Presence | app/actions/env.ts:52-56 | a key is present exactly when its setting is non-empty |
| EnvActions.Unset | app/actions/env.ts:57 | the missing keys are exactly the absent ones, in key order, and empty exactly when all are present |
| EnvActions.Report | app/actions/env.ts:52-69 | present, missing and ok agree; a key's source is "missing" exactly when it is absent, and "profile" exactly when it is present and a profile is used |
| EnvActions.GetEnvStatus | app/actions/env.ts:47-78 | the report is on the requested variant's settings (the store's for an unknown name); "profile" only for the default variant with an active profile; it lists the store's profiles and active profile |
| EnvActions.StatusSourceIsWhereTheValueIs | app/actions/env.ts:58-69 | a setting reported from the profile is set in the active profile, and one reported from the environment is set in the variant's environment variables |
| EnvActions.ClearEnv | app/actions/env.ts:121-124 | every profile and the active one are gone, the variant is kept, and the answer is ok |
| EnvActions.NormalizedVariant | app/actions/env.ts:128 | an absent name becomes "default"; a given one becomes its lower-cased form, keeping its length, and lower-casing it again changes nothing |
| EnvActions.SetVariant | app/actions/env.ts:126-136 | a name that is a variant once lower-cased becomes the system variant and is echoed; anything else is refused with "Invalid variant" and changes nothing |
| EnvActions.SetVariantIgnoresCase | app/actions/env.ts:127-131 | every variant is accepted whatever the case of its letters |
| SendAction.RenderContext | app/actions/send.ts:51-55 | the template sees every cell of the row, and `name` and `recipient` come from the mapped columns, whatever the row holds under those names |
| SendAction.RenderTemplate | app/actions/send.ts:45-69 | the body is rendered, or raw if rendering throws; the subject is the rendered (or raw) subject template when one is given, else the row's subject column when set, else empty |
| SendAction.SubjectTemplateOverridesColumn | app/actions/send.ts:61-67 | with a non-empty subject template, the message is the same whichever column the mapping names as subject, whatever the engine does |
| SendAction.FailedRenderKeepsRawText | app/actions/send.ts:56-64 | when the engine throws on the body and on the subject template for this row, the message carries the raw template and the raw subject |
| SendAction.ResolveSender | app/actions/send.ts:93-100 | a sender exists exactly when the address and password, after falling back to the process defaults, are non-empty; a non-empty profile password is the one used; a blank profile name falls back to `SENDER_NAME` when that is set, and the name falls back to the address |
| SendAction.SmtpRoute | app/actions/send.ts:103-109 | an SMTP route is secure exactly on port 465 (implicit TLS, section 3.3 of RFC 8314) |
| SendAction.PrimaryRoute | app/actions/send.ts:110-115 | only the self-hosted variants send over their own host and `PORT`; the others use the hosted service |
| SendAction.FallbackRoute | app/actions/send.ts:116-124 | a retry route exists exactly for the self-hosted variants with a finite `Number(PORT_ALT)`, on the same host at that port |
| SendAction.SendWithFallback | app/actions/send.ts:117-127 | one call on the primary route; a second call, on the retry route, exactly when the first failed and a retry route exists; the outcome, its error included, is that of the last call |
| SendAction.RetryOnlyForSelfHosted | app/actions/send.ts:116-124 | a retry happens only for a self-hosted variant, after an SMTP try, on `PORT_ALT` |
| SendAction.AttachmentsFor | app/actions/send.ts:139-140 | no attachments when the normalised name is empty, no attachments were given, or none are listed under that name; else those listed |
| SendAction.MessageFor | app/actions/send.ts:143-154 | the message goes to the row's recipient, from "name <address>", with the rendered subject and body and the row's attachments |
| SendAction.RowOutcome | app/actions/send.ts:137-174 | a row's calls are those of the primary-then-fallback send of the row's message (sender, recipient, rendered subject and body, attachments); there are one or two of them; its entry is "sent" with the message id exactly when the last call delivered, else "error" with that call's message; it carries the recipient, subject and attachment count |
| SendAction.AttemptLog | app/actions/send.ts:136-154 | the log of n rows holds one group of calls per row |
| SendAction.AttemptLogAt | app/actions/send.ts:136-154 | group i of the log is filtered row i's calls, so calls follow row order |
| SendAction.CallCount | app/actions/send.ts:136-154 | n rows make between n and 2n transport calls |
| SendAction.Items | app/actions/send.ts:136-174 | the report has one entry per processed row |
| SendAction.ItemsAt | app/actions/send.ts:156-173 | entry i of the report is what filtered row i yields, so entries follow row order |
| SendAction.CountSent | app/actions/send.ts:155 | the number of sent entries is at most the number of entries |
| SendAction.AllSentIffCountIsLength | app/actions/send.ts:185 | all entries are "sent" exactly when the sent count equals the number of entries |
| SendAction.DelayOf | app/actions/send.ts:133 | the delay is always positive: the requested one when positive, else 2000 ms |
| SendAction.JitterOf | app/actions/send.ts:134 | the jitter is the requested one rounded down when non-negative, else 250 ms |
| SendAction.JitterOffset | app/actions/send.ts:177-178 | the offset is a whole number in `[-jitter, jitter)`, and 0 without jitter |
| SendAction.WaitFor | app/actions/send.ts:179 | a pause lies in `[0, delay + jitter]` and at least `delay - jitter`, and is exactly the delay without jitter |
| SendAction.Pauses | app/actions/send.ts:176-181 | k pauses are k values |
| SendAction.PausesAt | app/actions/send.ts:176-181 | pause i is `max(0, delay + offset)` for the i-th draw |
| SendAction.Complete | app/actions/send.ts:83 | a request is complete exactly when the rows are an array, a mapping is given and the template is a non-empty string |
| SendAction.Filtered | app/actions/send.ts:129 | the processed rows are exactly the rows with a non-empty recipient cell |
| SendAction.FilteredIsOrderedSelection | app/actions/send.ts:129 | the processed rows keep their original order, and no row with a recipient is skipped |
| SendAction.SendRow | app/actions/send.ts:136-181 | one pass of the loop appends the row's entry and calls, bumps exactly the counter matching the entry, and adds a pause unless the row was the last |
| SendAction.SendRows | app/actions/send.ts:136-182 | the loop yields each row's entry and calls in order, sent and failed counters that match the entries and add up to the row count, and one pause after every row but the last |
| SendAction.SendBatch | app/actions/send.ts:71-190 | an incomplete request, then a missing sender address or password, end the batch with their error before any transport call; otherwise the report follows the filtered rows, sent + failed is their number, ok holds exactly when every entry was sent, and there are `max(n - 1, 0)` pauses |
| AuthAction.TrimOpt | app/actions/auth.ts:22-23 | an absent setting stays absent, a present one is trimmed |
| AuthAction.MissingAdminSettings | app/actions/auth.ts:26-29 | the list names exactly the unset administrator settings, email before password |
| AuthAction.Login | app/actions/auth.ts:18-59 | a cookie with the fresh token is written exactly on success; unset administrator settings are reported before any input check; absent input is reported next; with both configured and both inputs given, a login either succeeds or fails with "Invalid credentials" |
| AuthAction.LoginSucceedsIff | app/actions/auth.ts:41-47 | a login succeeds exactly when both administrator settings are non-blank, both inputs are given, the email matches up to white space and case, and the password matches up to white space |
| AuthAction.ConfigurationCheckedFirst | app/actions/auth.ts:25-39 | without administrator settings every login fails the same way, whatever was entered |
| AuthAction.EmailNormalised | app/actions/auth.ts:41-42 | an email is compared only through its trimmed, lower-cased form, so entering that form instead logs in alike |
| AuthAction.PasswordCaseSensitive | app/actions/auth.ts:43-45 | a password that differs from the administrator's only in letter case is refused |
| AuthAction.Logout | app/actions/auth.ts:61-70 | logout always reports ok and writes an empty, http-only cookie with a lifetime of 0 seconds and the configured secure flag |
| AuthAction.LoginSession | app/actions/auth.ts:45-58 | after a successful login the browser holds the fresh token; a failed login leaves the session as it was |
| AuthAction.LogoutEndsSession | app/actions/auth.ts:61-69 | after logout there is no session, whatever was held before |

## Left out

- The mail transport (SMTP, the hosted provider, attachment decoding) is a
  parameter. The model records each call's route, login and message, and
  the answer is given. The `encoding: "base64"` field passed along is not
  modelled.
- The template engine and `normalizeNameKey` are parameters. The template
  engine is `None` where it throws. `lib/normalizeName` is not part of this
  model.
- `Math.random()`, `setTimeout` and `new Date().toISOString()`:
  - the draws are a parameter;
  - the pauses are recorded as values, not spent as time;
  - entries carry no timestamp.
- `SendAction.SendBatch`: `delayMs` and `jitterMs` are reals or absent.
  Infinity is not modelled; a non-number or NaN is treated as absent.
- `JsValues.NumberOf`: only absent, blank and signed decimal integer
  settings are read exactly. Hexadecimal, fractional and exponent spellings
  read as NaN here.
- `JsStrings.Lower`: only ASCII letters are lower-cased. For the variant
  whitelist this is exact. For login emails, letters beyond ASCII are not
  folded.
- Strings are sequences of characters, not UTF-16 code units.
- `Object.keys` order is modelled as insertion order. JavaScript lists
  integer-like keys first; that is not modelled.
- Keys such as `__proto__` have special meaning on plain objects. In
  `parseEnv` and the profile store they are treated as ordinary keys.
- EnvStore.Store.SetActiveProfile: the profiles live in a plain object, so a
  name inherited from `Object.prototype` (`toString`, `constructor`, …)
  passes the check at lib/envStore.ts:52 without being stored. In the code
  such a name becomes active, and `getActiveEnv` then returns empty
  settings. The model keeps profiles in a map, so the name changes nothing.
- EnvStore.Store.GetProfile: for an inherited name the code returns the
  inherited function; the model returns nothing.
- SendAction.AttachmentsFor: for a normalised name such as `constructor`,
  the lookup at app/actions/send.ts:140 yields an inherited function. In the
  code, `atts.map` then throws inside the `try`, so the row gets an error
  entry without a transport call, with that function's `length` as its
  attachment count. The model yields no attachments for such a name.
- `uploadEnvAction` reading `FormData` and `File`: only the text of the
  file, its name and the profile field are kept.
- Rows that are not plain string maps, and an absent payload: an absent
  payload behaves like one with every field absent, which the model states
  directly.
- The random token (`crypto.randomBytes`), the cookie options from
  `lib/auth` and `isSecureCookie()` are parameters. The cookie write is an
  output of the login and logout functions. `lib/auth` is not part of this
  model.
- The `hint` and `example` texts of the status report are constant strings
  and are not part of the report datatype.
- `app/actions/templates.ts`, `app/api/env/route.ts` and `next.config.ts`
  are not part of this model. They cover file access, an HTTP wrapper
  around the status report, and framework configuration.
- Concurrent batches or requests sharing the module-level store: the store
  is single-threaded here.
