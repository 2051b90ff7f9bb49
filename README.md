# go-scrape-this core, modelled in Dafny

This project models the parts of go-scrape-this that decide things:

- **Password hashes.** The stored argon2id string (`$argon2id$v=19$m=…,t=…,p=…$salt$hash`) is written out and parsed back, and a stored hash is compared with a candidate.
- **Configuration readers.** Environment variables are read as integers, strings and booleans, with defaults.
- **Route-option parsing.** Route options are parsed as integers.
- **Database kinds.** A configured database name is normalised and matched against the four supported kinds. Both the server and the queue application do this.
- **Logger registry.** The server keeps one named logger context per name, created on first use.
- **Job queue.** A pool of workers goes through its lifecycle, a ready pool of idle workers fills and empties, and a dispatcher hands each submitted job to the first idle worker.

Modules:

- `Wrappers`: `Option` and `Result`.
- `GoTypes`: fixed-width integer types and the `uint32` conversion.
- `Text`: the parts of Go's `strings`, `strconv` and `fmt` the core relies on, written out.
  - `strings.TrimSpace` over the full `unicode.IsSpace` set.
  - `strings.ToLower`.
  - `strings.Split` and `strings.Join` with a one-rune separator.
  - `strconv.Itoa` and `strconv.Atoi`.
  - The `%d` verb of `fmt.Sscanf`.
- `Base64`: `base64.RawStdEncoding` with strict decoding.
- `PasswordHashing`: `server/app/database/structs/passwordHash.go`.
- `Env`: `server/app/utils/env.go`.
- `Convert`: `server/app/utils/convert.go`.
- `ServerDatabase` and `AppDatabase`: the two `database.go` files.
- `Logging`: `server/app/logging.go`.
- `Jobs`: `app/queue/job.go` and the `TestJob` of `app/testJob.go`.
- `Workers`: `app/queue/worker.go`. The `Worker` that `app/queue/queue.go` declares again behaves the same way and is modelled by the same class.
- `Queue`: the `JobQueue` of `app/queue/queue.go`.

Pure Go code is modelled as functions and lemmas. Code that changes state in place is modelled as classes whose methods update their fields:

- the password-hash receiver of `UnmarshalJSON`;
- the logging handler's context map;
- each worker's state;
- the queue's workers, ready pool and wait-group counters.

`Worker.State` is a function of the class: it reads the state and changes nothing. Each worker keeps a ghost history of the states it has held. Lemmas about that history state the lifecycle order.

## Model

| member | source | states |
|---|---|---|
| PasswordHashing.DecodeHash | server/app/database/structs/passwordHash.go:144-178 | A string that does not split into six `$`-separated fields is `ErrInvalidHash`. The result is `ErrIncompatibleVersion` exactly when the version field scans as a number other than 19. On success, the version field reads as 19, the memory, iterations and parallelism are what ScanParams reads from the fourth field, and the salt and key lengths are the lengths of the base64-decoded salt and hash fields, cut to `uint32`. |
| PasswordHashing.String | server/app/database/structs/passwordHash.go:35-48 | Splitting the string form at `$` gives back exactly its six fields: the empty prefix, the algorithm name, `v=19`, the parameters, and the base64 salt and hash. |
| PasswordHashing.Compare | server/app/database/structs/passwordHash.go:65-67 | True exactly when the two hash byte strings have the same length and the same byte at every position. |
| PasswordHashing.NewPasswordParams | server/app/database/structs/passwordHash.go:119-133 | The parameters hold the given memory, iterations, parallelism, salt length and key length, each in its own field. |
| PasswordHashing.ScanVersion | server/app/database/structs/passwordHash.go:151 | A version is read only from a field that starts with `v=`, and it is a 64-bit integer; ScanVersionOfDigits gives its value for any spelling. |
| PasswordHashing.ScanParams | server/app/database/structs/passwordHash.go:160 | Parameters are read only from a field that starts with `m=`; ScanParamsOfDigits gives their values for any spelling. |
| PasswordHashing.LoadPasswordHash | server/app/database/structs/passwordHash.go:107-117 | Fails exactly when decoding fails, giving the zero hash and decodeHash's error. Otherwise it gives the decoded hash, salt and parameters. |
| PasswordHashing.CompareHash | server/app/database/structs/passwordHash.go:69-75 | A string that does not load gives false and the load error. A string that loads gives no error and true exactly when its hash bytes equal the receiver's. |
| PasswordHashing.PasswordHashCell.UnmarshalJSON | server/app/database/structs/passwordHash.go:50-63 | On a decode error, the receiver's fields are left as they were and the error is decodeHash's. Otherwise all three fields become what LoadPasswordHash gives for the string. |
| PasswordHashing.PasswordHashCell.constructor | server/app/database/structs/passwordHash.go:29-33 | The receiver holds the given hash, salt and parameters. |
| PasswordHashing.FieldsHaveNoDollar | server/app/database/structs/passwordHash.go:35-48 | None of the six fields String joins contains a `$`: numbers are decimal and the salt and hash are base64. |
| PasswordHashing.ScanVersionOfInt | server/app/database/structs/passwordHash.go:151 | Scanning `v=%d` reads back any 64-bit integer written in decimal. |
| PasswordHashing.ScanParamsOfString | server/app/database/structs/passwordHash.go:160 | Scanning `m=%d,t=%d,p=%d` reads back the memory, iterations and parallelism that String wrote. |
| PasswordHashing.ScanVersionOfDigits | server/app/database/structs/passwordHash.go:151 | `v=` followed by blanks other than a newline, an optional `+` or `-` and any digits, leading zeros included, reads as the digits' value with the sign applied when it fits 64 bits; the scan stops at the first non-digit. |
| PasswordHashing.ScanUnsignedVerb | server/app/database/structs/passwordHash.go:160 | A literal, blanks and digits whose value is below the variable's bound read as that value into an unsigned variable, and the scan stops at the first non-digit. |
| PasswordHashing.ScanParamsOfDigits | server/app/database/structs/passwordHash.go:160 | `m=`, `,t=` and `,p=`, each followed by blanks and any digits that fit `uint32`, `uint32` and `uint8`, read as the three digits' values, leading zeros included. |
| PasswordHashing.ScanMemory | server/app/database/structs/passwordHash.go:160 | The `m=` verb reads the memory as a `uint32` and leaves the rest of the field. |
| PasswordHashing.ScanIterations | server/app/database/structs/passwordHash.go:160 | The `,t=` verb reads the iterations as a `uint32` and leaves the `,p=` part. |
| PasswordHashing.ScanParallelism | server/app/database/structs/passwordHash.go:160 | The `,p=` verb reads the parallelism as a `uint8` and leaves nothing. |
| PasswordHashing.ScanParamsOfSteps | server/app/database/structs/passwordHash.go:160 | The three verbs scanned in turn give ScanParams' result. |
| PasswordHashing.DecodeHashOfString | server/app/database/structs/passwordHash.go:35-48 | decodeHash of String(h) succeeds with h's parameters, salt and hash, the lengths being those of the salt and hash (cut to `uint32`). |
| PasswordHashing.LoadPasswordHashOfString | server/app/database/structs/passwordHash.go:107-117 | When h's recorded lengths match its salt and hash, LoadPasswordHash(String(h)) gives h back with no error. |
| PasswordHashing.DecodeHashIgnoresLabel | server/app/database/structs/passwordHash.go:145-148 | The text before the first `$` and the algorithm name are never checked. Any values there decode like the canonical `$argon2id$` prefix. |
| PasswordHashing.DecodeHashRejectsOtherVersion | server/app/database/structs/passwordHash.go:155-157 | Six fields whose version field is `v=` followed by a number other than 19 give `ErrIncompatibleVersion`. |
| PasswordHashing.CompareHashOfString | server/app/database/structs/passwordHash.go:69-75 | Comparing against another hash's string form loads without error and compares the two hash byte strings. |
| Base64.DecodeEncode | server/app/database/structs/passwordHash.go:165 | Strict decoding of an encoding gives back the bytes. |
| Base64.DecodeStrict | server/app/database/structs/passwordHash.go:165 | Text that decodes strictly is made only of alphabet characters, and its length is not one more than a multiple of four. |
| Base64.Decode | server/app/database/structs/passwordHash.go:165 | Whatever decodes is the encoding of its bytes once newlines are removed, so only canonical text is accepted. |
| Base64.DecodeStrictEncode | server/app/database/structs/passwordHash.go:165 | Strict decoding without newlines inverts encoding, by induction on groups of three bytes. |
| Base64.EncodeDecodeStrict | server/app/database/structs/passwordHash.go:171 | Strict decoding accepts only canonical text: every string it decodes is the encoding of what it decodes to. |
| Base64.DecodeInjective | server/app/database/structs/passwordHash.go:171 | Two strings that decode to the same bytes are the same once newlines are removed. |
| Base64.EncodeLength | server/app/database/structs/passwordHash.go:36-37 | The unpadded encoding of n bytes has ⌈8n/6⌉ characters. |
| Base64.Encode | server/app/database/structs/passwordHash.go:36-37 | Every character of the encoding is in the standard base64 alphabet. |
| Base64.DecodeSextet | server/app/database/structs/passwordHash.go:165 | Decoding an alphabet character gives the value that encodes to it. |
| Base64.DecodeEncodeSextet | server/app/database/structs/passwordHash.go:165 | Encoding then decoding a 6-bit value gives it back. |
| Base64.DecodeStrictGroup | server/app/database/structs/passwordHash.go:165 | A full group of four characters followed by more text decodes to its three bytes followed by the decoding of the rest. |
| Base64.EncodeDecodeStrictTail | server/app/database/structs/passwordHash.go:171 | A final group of two or three characters that decodes strictly is the encoding of its bytes (the unused bits are zero). |
| Text.TrimSpaceShape | server/app/utils/env.go:27 | The trimmed value is the slice of the input between its leading and trailing white space. It is empty, or begins and ends with a non-space rune. |
| Text.TrimSpace | server/app/utils/env.go:12 | The trimmed value is no longer than the input, and is empty or begins and ends with a rune that is not white space. |
| Text.ToLower | server/app/utils/env.go:51 | The result has the input's length, and each rune is the lower-case form of the rune at the same position. |
| Text.Split | server/app/database/structs/passwordHash.go:145 | A split has at least one piece, and no piece contains the separator. |
| Text.Join | server/app/database/structs/passwordHash.go:38-47 | Joining pieces that do not contain the separator gives a string with exactly one separator fewer than there are pieces. |
| Text.Atoi | server/app/utils/env.go:15 | A value Atoi accepts is an optional sign followed by digits (at least one rune), and its number fits in 64 bits; AtoiOfDigits gives the value for any spelling. |
| Text.ScanVerb | server/app/database/structs/passwordHash.go:151 | A `%d` verb after a literal reads only input that starts with the literal, and its value is within the range of the variable; ScanVerbOfDigits gives the value for any spelling. |
| Text.TrimSpaceEmptyIffAllSpace | server/app/utils/env.go:12 | The trimmed value is empty exactly when the value is all white space. |
| Text.TrimSpaceIdempotent | server/app/utils/env.go:27 | Trimming twice is trimming once. |
| Text.TrimSpacePadded | server/app/utils/env.go:51 | A word with white space on both sides trims to the word. |
| Text.NormaliseOfLower | server/app/database/database.go:28 | A lower-case ASCII word is unchanged by trimming and lower-casing. |
| Text.SplitJoin | server/app/database/structs/passwordHash.go:145 | Splitting a join of `$`-free fields at `$` gives back the fields. |
| Text.JoinSplit | server/app/database/structs/passwordHash.go:145 | Joining the pieces of a split with the separator gives back the string. |
| Text.SplitCount | server/app/database/structs/passwordHash.go:146 | A split has one more piece than the string has separators. |
| Text.AtoiFormatInt | server/app/utils/env.go:15 | Atoi reads back any 64-bit integer written in decimal. |
| Text.AtoiRejectsLeadingSpace | server/app/utils/env.go:15 | Atoi rejects a value with leading white space. |
| Text.AtoiRejectsTrailingSpace | server/app/utils/env.go:15 | Atoi rejects a value with trailing white space. |
| Text.AtoiOfDigits | server/app/utils/env.go:15 | Any non-empty run of digits, bare or after `+` or `-`, leading zeros included, reads as its value with the sign applied exactly when that fits in 64 bits, and is rejected otherwise. |
| Text.AtoiOfBareDigits | server/app/utils/env.go:15 | Digits without a sign read as their value when it is at most the largest `int`, and are rejected otherwise. |
| Text.AtoiOfSignedDigits | server/app/utils/env.go:15 | A `+` or `-` followed by digits reads as the digits' value with the sign applied when it fits in 64 bits, and is rejected otherwise. |
| Text.DigitsValueLeadingZero | server/app/utils/env.go:15 | A leading zero does not change the value of a run of digits. |
| Text.ScanVerbOfFormat | server/app/database/structs/passwordHash.go:151 | The `%d` verb after a literal reads back a number in range written in decimal and stops at the first non-digit. |
| Text.ScanVerbOfDigits | server/app/database/structs/passwordHash.go:151 | After the literal, blanks other than a newline, a sign the variable allows and any digits whose value fits read as that value; the rest of the input is left unread. |
| Text.ScanDecimalOfDigits | server/app/database/structs/passwordHash.go:151 | `%d` skips blanks other than a newline, takes a sign only into a signed variable, reads digits with leading zeros as their value and stops at the first non-digit. |
| Text.ScanDecimalSkipsBlanks | server/app/database/structs/passwordHash.go:151 | Blanks other than a newline before the number do not change what `%d` reads. |
| Text.ScanDecimalOfSigned | server/app/database/structs/passwordHash.go:151 | `%d` on an allowed sign and digits whose value fits reads that value, with the sign applied. |
| Text.ScanDecimalOfBareDigits | server/app/database/structs/passwordHash.go:151 | `%d` on digits without a sign reads their value when it fits the variable. |
| Text.ScanDecimalOfSignRune | server/app/database/structs/passwordHash.go:151 | `%d` into a signed variable on `+` or `-` and digits reads the digits' value with the sign applied. |
| Text.ScanDigitsOfDigits | server/app/database/structs/passwordHash.go:151 | The digit part of `%d` reads the longest run of digits as its value, negated after a `-`, and leaves the rest unread. |
| Text.SkipSpaceOfPadded | server/app/database/structs/passwordHash.go:151 | Sscanf skips blanks other than a newline up to the first rune that is not white space. |
| Text.DigitsValueOfFormat | server/app/database/structs/passwordHash.go:39-47 | The decimal digits of n have value n. |
| Env.RequireIntEnv | server/app/utils/env.go:10-20 | An unset or blank variable gives the missing-variable error. Otherwise the result is a number exactly when Atoi accepts the raw value, and the not-an-integer error when it does not. A number is Atoi's value of the raw value and fits in 64 bits. |
| Env.RequireStringEnv | server/app/utils/env.go:22-28 | The result is an error exactly when the variable is unset or blank. Otherwise it is non-empty and neither begins nor ends with white space. |
| Env.ReadIntEnv | server/app/utils/env.go:30-40 | RequireIntEnv's number, or the default on either of its errors. |
| Env.ReadStringEnv | server/app/utils/env.go:42-48 | RequireStringEnv's value, or the default on its error. |
| Env.RequireBoolEnv | server/app/utils/env.go:66-76 | An unset or blank variable is the missing-variable error. Any other error names the variable. A success is what parseBoolValue gives for the variable's value. |
| Env.ReadBoolEnv | server/app/utils/env.go:78-90 | A result other than the default is what parseBoolValue gives for the variable's value. |
| Env.ParseBoolValue | server/app/utils/env.go:50-64 | True exactly for "y" and false exactly for "n", after trimming and lower-casing. Every other value is the parse error, because an empty Go case does not fall through. |
| Env.RequireIntEnvOfFormat | server/app/utils/env.go:10-20 | A variable set to a 64-bit integer in decimal reads back as that integer. |
| Env.RequireIntEnvRejectsPadding | server/app/utils/env.go:15-18 | A number with white space around it is not an integer, because Atoi is given the untrimmed value. |
| Env.RequireStringEnvShape | server/app/utils/env.go:27 | The value is the variable with white space removed from both ends and nowhere else. |
| Env.RequireStringEnvIdempotent | server/app/utils/env.go:22-28 | A variable set to a value RequireStringEnv returned reads back unchanged. |
| Env.ParseBoolValueRejectsWord | server/app/utils/env.go:51-63 | A lower-case word other than "y" and "n" is the parse error. |
| Env.ParseBoolValueRejectsListedWords | server/app/utils/env.go:52-59 | "true", "1", "yes", "false", "0" and "no" are all parse errors. |
| Env.ParseBoolValueOfPaddedY | server/app/utils/env.go:51-56 | "y" or "Y" with white space around it is true. |
| Env.ParseBoolValueOfPaddedN | server/app/utils/env.go:51-61 | "n" or "N" with white space around it is false. |
| Env.RequireBoolEnvOutcome | server/app/utils/env.go:66-76 | An unset or blank variable is the missing-variable error. The result is true or false exactly for a trimmed, lower-cased "y" or "n". Any other value is the error naming the variable. |
| Env.FallbackWordsDoNotParse | server/app/utils/env.go:80-84 | The fallbacks "true" and "false" that ReadBoolEnv writes out never parse. |
| Env.ReadBoolEnvAgrees | server/app/utils/env.go:78-90 | ReadBoolEnv is RequireBoolEnv with the default in place of every error, including an unset variable. |
| Env.ReadBoolEnvIgnoresTrue | server/app/utils/env.go:78-90 | A variable set to "true" reads as the default, even when the default is false. |
| Convert.ToInteger | server/app/utils/convert.go:9-15 | Atoi's value when it accepts the string, and the default otherwise. |
| Convert.GetIntOption | server/app/utils/convert.go:17-24 | The default when the route variable is absent, otherwise ToInteger of its value. |
| Convert.ToIntegerOfFormat | server/app/utils/convert.go:9-15 | A 64-bit integer in decimal converts back to itself. |
| Convert.ToIntegerRange | server/app/utils/convert.go:9-15 | Any result other than the default is a 64-bit integer. |
| Convert.ToIntegerOfBlank | server/app/utils/convert.go:9-15 | An empty value, or one with white space at either end, gives the default. |
| Convert.ReadIntEnvIsGetIntOption | server/app/utils/env.go:30-40 | ReadIntEnv and GetIntOption give the same number for every map, name and default. The blank-value check of ReadIntEnv never changes the outcome, because Atoi refuses blank values too. |
| ServerDatabase.MatchName | server/app/database/database.go:29-39 | A match is a supported kind whose name is the key. There is no match exactly when no supported kind has that name, and the error is "unknown or unsupported database type". |
| ServerDatabase.DatabaseType.String | server/app/database/database.go:23-25 | The name of each of the four supported kinds is a non-empty lower-case word. |
| ServerDatabase.ParseDatabaseType | server/app/database/database.go:27-40 | A success is a supported kind whose name is the trimmed, lower-cased value. It fails exactly when no supported name equals that, and the error is "unknown or unsupported database type". |
| ServerDatabase.MatchNameOfString | server/app/database/database.go:29-38 | Each supported kind is matched by its own name. |
| ServerDatabase.ParseDatabaseTypeOfString | server/app/database/database.go:27-40 | Every supported kind parses back from its String(). |
| ServerDatabase.ParseDatabaseTypeNormalises | server/app/database/database.go:28 | White space around a name does not change the result. |
| ServerDatabase.ParseDatabaseTypeOfSpelling | server/app/database/database.go:27-40 | Any spelling that lower-cases to a supported name, with white space around it, parses as that kind. |
| ServerDatabase.ParseDatabaseTypeRejectsOtherWord | server/app/database/database.go:39 | A lower-case word that is none of the four names is the error. |
| ServerDatabase.ParseDatabaseTypeRejectsPostgres | server/app/database/database.go:45 | The PostgreSQL kind is named "pssql", so "postgres" is refused. |
| AppDatabase.MatchName | app/database/database.go:52-62 | As in the server, for the queue application's copy. |
| AppDatabase.DatabaseType.String | app/database/database.go:34-36 | The name of each of the four supported kinds is a non-empty lower-case word. |
| AppDatabase.ParseDatabaseType | app/database/database.go:50-63 | As in the server: a supported kind named by the trimmed, lower-cased value, or the unknown-type error exactly when there is none. |
| AppDatabase.MatchNameOfString | app/database/database.go:52-61 | Each supported kind is matched by its own name. |
| AppDatabase.ParseDatabaseTypeOfString | app/database/database.go:50-63 | Every supported kind parses back from its String(). |
| AppDatabase.ParseDatabaseTypeNormalises | app/database/database.go:51 | White space around a name does not change the result. |
| AppDatabase.AgreesWithServer | app/database/database.go:50-63 | The two copies accept the same values, give kinds of the same name, and fail with the same message. |
| Logging.GetOrCreate | server/app/logging.go:34-48 | The map afterwards holds the name, and the result is its entry. An existing entry is returned and the map is unchanged. Otherwise exactly one new entry is added: a fresh context for the handler's writer, carrying the name. No existing entry changes. |
| Logging.FreshContext | server/app/logging.go:45 | A new context writes to the handler's writer, carries the field `context` = name, and stamps the time. |
| Logging.LoggingHandler.constructor | server/app/logging.go:17-26 | A new handler records the writer and the default context name, and has an empty map. |
| Logging.LoggingHandler.SetContext | server/app/logging.go:28-32 | The map becomes the old one with the name set to the given context. |
| Logging.LoggingHandler.Context | server/app/logging.go:34-48 | The map and result are GetOrCreate of the old map. |
| Logging.LoggingHandler.LoggerFromContext | server/app/logging.go:50-53 | The map is as after Context(name), and the logger is built from the context Context(name) gives. |
| Logging.LoggingHandler.Default | server/app/logging.go:55-57 | The same as LoggerFromContext of the default context name. |
| Logging.GetOrCreateIdempotent | server/app/logging.go:34-48 | A second Context call with the same name returns the same context and changes nothing. |
| Logging.SetContextChangesOnlyItsName | server/app/logging.go:28-32 | SetContext sets its own name's entry and leaves every other entry as it was. |
| Logging.StepKeys | server/app/logging.go:31 | One SetContext or Context call adds at most its own name and removes nothing. |
| Logging.RunKeys | server/app/logging.go:10-57 | After any sequence of calls, the names in the map are the names before plus exactly the names the calls used. No entry is ever removed. |
| Logging.RunKeepsUnsetEntry | server/app/logging.go:35-38 | Once a name has a context, calls that do not set that name leave its entry unchanged, so Context keeps returning it. |
| Jobs.Recovered | app/queue/worker.go:64-68 | `recover()` gives the panic payload exactly when the job's Process panicked, and nothing when it returned. |
| Jobs.TestJobAsJob | app/testJob.go:13-19 | A TestJob's id is its Id, and its Process always panics with its Message. |
| Workers.Initial | app/queue/worker.go:35-47 | A new worker's state has the given id, is initialized, and has an empty job id. |
| Workers.Started | app/queue/worker.go:94-97 | Starting keeps the id, clears the job id, and makes the state starting. From initialized it is a lifecycle step. |
| Workers.CheckedIn | app/queue/worker.go:100-104 | Checking in makes the worker pending, keeps the id and clears the job id. From starting or processed, it is a lifecycle step. |
| Workers.Begun | app/queue/worker.go:74-78 | Process records the job's id, keeps the worker's id, and makes the state processing. From pending it is a lifecycle step. |
| Workers.Finished | app/queue/worker.go:59-63 | The finishing step keeps the same job id and moves from processing to processed. |
| Workers.Stopped | app/queue/worker.go:110-113 | The quit case keeps the id, clears the job id, and makes the state stopping. From pending it is a lifecycle step. |
| Workers.Worker.constructor | app/queue/worker.go:35-47 | The new worker's state is initialized with the given id. Its history is that one state. |
| Workers.Worker.State | app/queue/worker.go:123-125 | The state returned is the last one in the worker's history, and the history follows the lifecycle. |
| Workers.Worker.Start | app/queue/worker.go:94-97 | The state becomes starting with the same id, and is appended to the history. The lifecycle is kept. |
| Workers.Worker.CheckIn | app/queue/worker.go:100-105 | The state becomes pending with the same id and an empty job id. The lifecycle is kept. |
| Workers.Worker.Process | app/queue/worker.go:73-82 | The worker goes through processing then processed, with the same job id in both. The payload reported to job.Error is the panic payload, present exactly when the job panicked. |
| Workers.Worker.Finish | app/queue/worker.go:58-70 | The state becomes processed with the job's id, and the recovered payload, if any, is what is reported. |
| Workers.Worker.Stop | app/queue/worker.go:109-116 | A pending worker becomes stopping with an empty job id. |
| Workers.PhaseNamesDistinct | app/queue/worker.go:9-16 | The six state names are pairwise distinct. |
| Workers.IsActive | app/queue/worker.go:49-51 | `IsActive` compares the state name with "processed" and "processing", and holds exactly in the processing and processed states. |
| Workers.IsReady | app/queue/worker.go:53-55 | `IsReady` compares the state name with "pending", and holds exactly in the pending state. |
| Workers.ActiveAndReadyExclusive | app/queue/worker.go:49-55 | No state is both active and ready. |
| Workers.LifecycleKeepsId | app/queue/worker.go:59-113 | Every state a worker ever holds keeps the id it was created with. |
| Workers.StoppingIsLast | app/queue/worker.go:109-116 | Stopping is terminal: no state ever follows it. |
| Workers.JobIdOnlyWhileActive | app/queue/worker.go:94-113 | The initialized, starting, pending and stopping states carry an empty job id. |
| Workers.ProcessedFollowsProcessing | app/queue/worker.go:58-82 | A processed state comes directly after the processing state of the same job. |
| Workers.TestJobReportsMessage | app/testJob.go:17-23 | Processing a TestJob reports its message to its Error. |
| Queue.JobQueue.constructor | app/queue/queue.go:43-60 | Exactly maxWorkers distinct new workers, with ids 0 .. maxWorkers-1, all initialized. The ready pool is empty with capacity maxWorkers, and nothing is waiting. |
| Queue.JobQueue.Start | app/queue/queue.go:63-68 | Every worker takes its starting state with its id, and that state is appended to its history. The queue runs with both wait-group counters set. The job record and the ready pool do not change. |
| Queue.JobQueue.StartWorkers | app/queue/queue.go:64-66 | Each worker in turn takes its starting state, and no other worker changes. |
| Queue.JobQueue.Submit | app/queue/queue.go:93-95 | The job joins the end of the jobs waiting for the dispatcher and of the record of submitted jobs. Nothing else changes. |
| Queue.JobQueue.WorkerCheckIn | app/queue/queue.go:151-157 | The worker's id joins the end of the ready pool, and the worker becomes pending, a state appended to its history. The pool never exceeds its capacity. No other worker and no job record changes. |
| Queue.JobQueue.Dispatch | app/queue/queue.go:71-73 | The oldest waiting job goes to the first worker in the ready pool, and only that worker. Its history gains the processing and processed states for that job, and it reports the panic payload. Both queues lose their heads. The job and the worker are appended to the record of handed-out jobs, which stays a prefix of the jobs submitted, in order. Every other worker's state and history are unchanged. |
| Queue.JobQueue.Stop | app/queue/queue.go:74-90 | Every worker stops once, in id order, and its stopping state is appended to its history. Both wait-group counters reach zero and the queue is shut down. The waiting jobs, the job record and the ready pool do not change. |
| Queue.JobQueue.StopWorkers | app/queue/queue.go:75-78 | Each worker in turn becomes stopping and counts itself out of the workers wait group. The order of stopping is 0 .. n-1. |
| Queue.Range | app/queue/queue.go:47 | The ids 0 .. n-1 in order. |
| Queue.IdsBelow | app/queue/queue.go:45 | The set of ids below n has n elements. |
| Queue.DistinctWithin | app/queue/queue.go:45 | A sequence of distinct elements of a set is no longer than the set. |
| Queue.PoolHasRoom | app/queue/queue.go:45 | A ready pool of distinct ids below n that lacks some worker's id has room for it, so a check-in never blocks on a full channel. |

## Left out

- Goroutines, channel blocking, `select` nondeterminism, `sync.WaitGroup` and the race of `Add` inside the goroutines (app/queue/queue.go:67-68, app/queue/worker.go:92-93): the queue is modelled as atomic steps run one after another.
- Queue.JobQueue.Stop: requires every worker to be pending, because a quit send waits until the worker reaches its `select`. A worker busy with a job gets there only by finishing it and checking in.
- Queue.JobQueue.Dispatch: receiving the job, checking out the worker, and the worker's whole `Process` run as one step.
- Queue.JobQueue.Submit: the unbuffered send is recorded as a waiting job until the dispatcher receives it. A send after shutdown is recorded and never received.
- Workers.Worker.Start: requires a newly built worker. Calling `Start` twice in Go starts a second loop, which is not modelled.
- The ready pool holds worker ids where the source holds each worker's job channel.
- The state names are an enumeration of the six constants. `IsActive` and `IsReady` still compare the names, as the source does.
- `job.Error` is modelled as the payload the worker reports. The two declarations of `Job.Error` differ only in whether a logger is passed.
- The panic payload is a string, the type `TestJob` panics with. The job id is the string form of the job's UUID; UUID formatting is not modelled.
- `LogWithState` and all zerolog output, the `sync.Mutex` of the logging handler, and the setting of `zerolog.TimeFieldFormat`.
- Logging.LoggingHandler.Context: the second lookup under the lock cannot find anything when steps run one at a time, so the model looks once.
- Contexts and loggers are values, so "the same context" means equal values rather than the same pointer.
- ServerDatabase and AppDatabase: `ParseDatabaseType` returns the kind as a value rather than a pointer to the package variable.
- `NewDatabase`, `RunMigrations` and the user model: calls into GORM and database drivers.
- `argon2.IDKey`, `generateRandomBytes`, `NewPasswordHash` and `ComparePlainText`: the hashing function and randomness are foreign.
- PasswordHashing.Compare: byte equality. The constant-time property of `subtle.ConstantTimeCompare` is not modelled.
- PasswordHashing.PasswordHashCell.UnmarshalJSON: takes the string `json.Unmarshal` would produce; JSON unquoting is not modelled.
- PasswordHashing.DecodeHash: errors from `fmt.Sscanf` are one `ScanFailure` value and errors from base64 are one `CorruptInput` value, rather than Go's detailed error values.
- Text.ToLower: only the runes Go lowers into ASCII are lowered: `A`-`Z`, U+0130 and U+212A. Every other rune is kept as it is, although Go lowers other non-ASCII capitals to non-ASCII runes. No comparison in the core with an ASCII word can tell the difference.
- Queue.JobQueue.constructor: requires a non-negative `maxWorkers`. In Go a negative value makes `make` panic when the ready-pool channel is created, and that panic is not modelled.
- Text.Atoi: assumes a 64-bit `int`. Its error is a missing value rather than a `*strconv.NumError`.
- `os.LookupEnv` becomes a map passed in as the environment, and `mux.Vars` becomes a map of route variables.
- The shutdown timeout, `QueueStatus` and `GetStates`: the server's queue package is not part of this model.
- HTTP servers, routing, middleware and handlers, scraping, WASM interop, runtime memory statistics and the front-end build configuration.
