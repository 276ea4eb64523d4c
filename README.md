# cocobot core, modelled in Dafny

This project models the logic at the heart of cocobot, a Discord bot for the Thailand Discord
server, and proves properties of it. The model covers nine parts:

- **Rate limiting.** There are three limiters. The in-memory limiter keeps a sliding-window log of
  request times per `"identifier:resource"` key. The table limiter keeps a fixed-window counter
  row per (identifier, resource). The hybrid limiter asks the in-memory one first and the table
  second. On top of them sit `check_rate_limit`, its user/channel/guild/global wrappers and the
  command limiter.
- **TTL cache.** This is the in-memory branch of `CacheManager`: a dictionary of value and expiry,
  where an entry expires lazily when it is read.
- **Database repositories.** These are the `DatabaseManager` operations: user upsert, the usage
  log, the cache table and the settings table.
- **Input validation.** This covers the validators and sanitisers of `utils/security.py` and the
  three pattern detectors. It also covers `validate_and_sanitize_input` and the fixed order of
  its checks.
- **Exceptions.** This is the exception taxonomy: error codes and string forms.
- **Monitoring.** This is the metrics collector, the health checker and the bot-level counters,
  including `get_command_stats`.
- **Pollution.** This is the `/pollution` command: how the AQI is banded and how the reply text is
  built.
- **Configuration.** This covers building the configuration and validating it, and the global
  configuration holder.
- **The bot's handlers.** These are the "tate" trigger with its per-user cooldown, the splitting of
  `/languages` into chunks, and the clean-up of the `/exchangerate`, `/weather` and `/time`
  arguments.

Time is an integer `now` given to each operation. Where the Python code updates state in place, the
Dafny code uses a class:

- the limiters' dictionaries;
- the cache dictionary;
- the database tables, as maps;
- the metric lists and the health checks;
- the `last_tate_triggered` map;
- the global configuration.

Each method is proved against a specification function of the old state. The properties are
proved about those functions.

Modules:

| module | file | models |
|---|---|---|
| `Strings` | strings.dfy | shared string helpers: `str.strip`, `str.isspace`, ASCII `upper`/`lower`, `str(int)`, `join`, `replace` and `\w` |
| `Exceptions` | exceptions.dfy | utils/exceptions.py |
| `SecurityPatterns` | security_patterns.dfy | the `SecurityChecker` patterns of utils/security.py |
| `Security` | security.dfy | the rest of utils/security.py |
| `Cache` | cache.dfy | utils/cache.py |
| `Database` | database.dfy | utils/database.py |
| `RateLimit` | rate_limit.dfy | utils/rate_limit.py |
| `Monitoring` | monitoring.dfy | utils/monitoring.py |
| `Pollution` | pollution.dfy | cogs/pollution.py |
| `AppConfiguration` | app_config.dfy | config/app_config.py |
| `Bot` | bot.dfy | bot.py |

## Model

| member | source | states |
|---|---|---|
| Exceptions.CocobotException.Code | utils/exceptions.py:31-139 | For the base class, the error code is the one the caller gave. Each of the seven subclasses fixes a non-empty code. |
| Exceptions.CocobotException.ToString | utils/exceptions.py:25-28 | With a truthy code, the string form is `[`, the code, `] `, then the message. Otherwise it is exactly the message. |
| Exceptions.MessageRecoverable | utils/exceptions.py:25-28 | The message can be read back from the string form, given the code. |
| Exceptions.SubclassStringStartsWithCode | utils/exceptions.py:31-139 | The string form of every subclass exception starts with its bracketed code. |
| Exceptions.SubclassCodes | utils/exceptions.py:31-139 | The codes are CONFIG_ERROR, API_ERROR, COMMAND_ERROR, RATE_LIMIT_ERROR, VALIDATION_ERROR, DB_ERROR and SECURITY_ERROR. |
| Exceptions.TaggedForm | utils/exceptions.py:26-27 | With a non-empty code, the string form is the tag followed by the message. |
| Exceptions.StringExamplesPlain | tests/test_exceptions.py:34-40 | With no code or an empty code, the string form is the bare message, even when an original exception is given. |
| Exceptions.StringExamplesTagged | tests/test_exceptions.py:42-46 | These are the tagged string forms the exception tests expect. |
| SecurityPatterns.SqlAsWrittenOnlyQuoteEquals | utils/security.py:398-418 | With the upper-case patterns matched against the lower-cased text, the SQL check flags a text exactly when `'\s*=\s*'` occurs in it. |
| SecurityPatterns.SqlAsWrittenMissesTautology | utils/security.py:406-411 | The SQL check as written does not flag "1 OR 1=1". |
| SecurityPatterns.SqlCorrectedExtendsAsWritten | utils/security.py:406-416 | The SQL check with lower-case keywords flags every text the as-written check flags. |
| SecurityPatterns.SqlCorrectedFlagsTautology | tests/test_security.py:286-296 | The corrected SQL check flags "1 OR 1=1". |
| SecurityPatterns.SqlCorrectedFlagsDrop | tests/test_security.py:286-296 | The corrected SQL check flags "'; DROP TABLE users; --". |
| SecurityPatterns.SqlCorrectedFlagsUnion | tests/test_security.py:286-296 | The corrected SQL check flags "' UNION SELECT * FROM users --". |
| SecurityPatterns.XssScriptExample | tests/test_security.py:263-273 | The XSS check flags a `<script>` tag. |
| SecurityPatterns.XssJavascriptExample | tests/test_security.py:263-273 | The XSS check flags a `javascript:` URL. |
| SecurityPatterns.XssHandlerExample | tests/test_security.py:263-273 | The XSS check flags an `onload=` event handler, matched by `on\w+\s*=`. |
| SecurityPatterns.CommandInjectionExample | tests/test_security.py:309-319 | The command-injection check flags "; rm -rf /": a metacharacter plus a whole-word shell command. |
| SecurityPatterns.XssIgnoresCase | utils/security.py:368-385 | The XSS check lower-cases its input, so upper-casing the text never changes the verdict. |
| SecurityPatterns.NoShellMetaNotFlagged | utils/security.py:435-448 | A text without any of ``;&|`$%`` is never flagged for command injection, whatever shell words it holds. |
| Security.ValidateLength | utils/security.py:134-159 | None counts as "". The value is accepted iff min <= length and, when a max is given, length <= max. An accepted value comes back unchanged. A too-short value gets the "at least" message, even when it is also too long. Otherwise a too-long value gets the "no more than" message. Every error is a ValidationError naming the field. |
| Security.ValidateLengthAcceptsExample | tests/test_security.py:155-159 | A 20-character text is accepted within 5..100, and None is accepted as "". |
| Security.ValidateLengthTooShortExample | tests/test_security.py:161-166 | "hi" is rejected with the "at least 5" message. |
| Security.ValidateLengthTooLongExample | tests/test_security.py:168-174 | A 101-character text is rejected with the "no more than 100" message. |
| Security.ValidateChoice | utils/security.py:162-180 | The value is returned iff it is one of the choices. Otherwise the error names the field and lists the choices, joined with ", ". |
| Security.ValidateDiscordIdAsWritten | utils/security.py:86-106 | This is the validator as written. It accepts exactly what `re.match('^\d{17,20}$')` accepts, including one trailing newline. |
| Security.DiscordIdAsWrittenAcceptsNewline | utils/security.py:28 | An 18-digit id followed by "\n" passes the as-written validator and comes back with the newline. |
| Security.ValidateDiscordId | utils/security.py:86-106 | An id is accepted iff it is 17 to 20 digits, and comes back unchanged. An empty id gets "is required"; anything else invalid gets the format message. |
| Security.DiscordIdVersionsAgree | utils/security.py:100-106 | The as-written and corrected validators agree on every input that does not end in a newline. |
| Security.DiscordIdExamples | tests/test_security.py:99-126 | These are the accepted and rejected ids of the tests. |
| Security.ValidateCurrencyCode | utils/security.py:109-131 | Empty input gets "is required". A code is accepted iff its stripped, upper-cased form is three letters A-Z, and that form is returned. |
| Security.CurrencyCodeFixpoint | utils/security.py:123-131 | A valid code validates to itself. |
| Security.CurrencyCodeUnstripped | utils/security.py:123-131 | Without surrounding spaces, only the upper-casing changes the input. |
| Security.CurrencyCodeLowerCaseExample | tests/test_security.py:150-153 | "usd" becomes "USD". |
| Security.CurrencyCodeLengthExamples | tests/test_security.py:136-148 | "us" and "usdd" are rejected. |
| Security.CurrencyCodeRejectsNonLetter | utils/security.py:126-131 | Any character that is not a letter, at any position of an argument with no surrounding whitespace, makes validation fail with a ValidationError. |
| Security.CurrencyCodeCharacterExamples | tests/test_security.py:136-148 | "us$" and "123" are rejected. |
| Security.ValidateEmail | utils/security.py:32-52 | An address is accepted iff the e-mail pattern matches, optionally before one final newline. The accepted value is the stripped address in lower case, which has the address shape. "" gives "<field> is required", and any other rejection gives "Invalid <field> format"; both are ValidationErrors naming the field. |
| Security.EmailNormalAccepted | utils/security.py:46-52 | A lower-case address of the right shape is returned unchanged. |
| Security.EmailIdempotent | utils/security.py:32-52 | Validating a validated address gives the same result. |
| Security.EmailAcceptsExample | tests/test_security.py:33-44 | "test@example.com" is accepted unchanged. |
| Security.EmailRejectsExample | tests/test_security.py:46-60 | "invalid-email" is rejected with a ValidationError. |
| Security.SanitizeText | utils/security.py:197-221 | None gives "". The result is at most max_length long and holds no control character other than tab, LF and CR. Each character of the stripped, cut text occurs in the result exactly as often as in that text, unless it is a removed control character, which does not occur at all. |
| Security.SanitizeTextInOrder | utils/security.py:208-221 | The result is the stripped, cut text with the control characters removed and the rest kept in order. |
| Security.SanitizeTextKeepsCleanText | utils/security.py:208-221 | Stripped, short text with no control character passes unchanged. |
| Security.SanitizeTextPlainExample | tests/test_security.py:194-198 | "Hello world!" passes unchanged. |
| Security.Basename | utils/security.py:305 | The result is the suffix of the path after the last '/' and contains no '/'. |
| Security.ReplaceReserved | utils/security.py:308 | Each of `<>:"/\|?*` becomes '_' in place, and every other character is kept. |
| Security.CleanFilename | utils/security.py:299-311 | The cleaned name has no reserved or control character and is no longer than the input. Each character occurs in it as often as in the basename with reserved characters replaced by '_', unless it is a control character, which does not occur. |
| Security.CleanFilenameInOrder | utils/security.py:299-311 | The cleaned name is the basename with reserved characters replaced and the control characters removed in place, the rest kept in order. |
| Security.CleanFilenameReplacesReserved | utils/security.py:299-311 | A name without control characters is cleaned to its basename with each reserved character replaced, in place, by '_'. |
| Security.SplitExt | utils/security.py:315 | The name and the extension concatenate to the file name. The extension is empty, or a dot followed by no other dot. |
| Security.LimitLength | utils/security.py:314-316 | The corrected limit: the result is at most 255 long. A short name is kept. A long name with an extension of at most 255 keeps the extension and cuts the name. Safety of the characters is preserved. |
| Security.SanitizeFilename | utils/security.py:289-318 | This is the corrected version (see Findings). Empty gives empty. The result is at most 255 long and safe. A clean name within the limit is the result itself. A longer clean name whose extension fits is cut to exactly 255 characters: the front of its stem, then the whole extension. |
| Security.FilenameAsWrittenExceedsLimit | utils/security.py:314-316 | As written, "a." followed by 300 'x' gives a 301-character name. |
| Security.FilenameCorrectedWithinLimit | utils/security.py:314-316 | The corrected version cuts the same name to 255. |
| Security.DirectoryPartDropped | utils/security.py:299-311 | Any directory part before a safe name of at most 255 characters is dropped and the name is kept, as the test on "../../../etc/passwd" expects. |
| Security.FilenamePlainExample | tests/test_security.py:237-241 | "test_file.txt" is kept. |
| Security.EscapeMarkdown | utils/security.py:505-517 | The length grows by the number of special characters. A special first character gets a backslash before it, and any other first character is kept. |
| Security.EscapeMarkdownRoundTrip | utils/security.py:505-517 | Removing one backslash before each character of the escaped text gives back the input. |
| Security.EscapeMarkdownAppend | utils/security.py:515-517 | Escaping works character by character: the escape of a concatenation is the concatenation of the escapes. |
| Security.EscapeMarkdownChar | utils/security.py:515-517 | One character is escaped to a backslash and itself iff it is one of the markdown specials, and is kept alone otherwise. |
| Security.EscapeMarkdownExample | tests/test_security.py:351-355 | "*a*" becomes "\*a\*". |
| Security.ValidateAndSanitizeInput | utils/security.py:451-502 | The XSS, SQL and command checks run in that order, with the SQL check and the Discord-id validator as written. A flagged input raises SecurityError with that check's message, and only a flagged input does. A "text" input is accepted iff min_length <= its length <= max_length; it then gives its sanitised text, and otherwise the length validator's error. A "url" input gives "url is required" when empty, the URL check's error if there is one, and otherwise the rebuilt URL. The other types give their validator's result, and unknown types give the sanitised text. |
| Cache.Lookup | utils/cache.py:55-64 | `get` returns a value iff the key is present and its expiry lies strictly after now. The value returned is the stored one. |
| Cache.Expire | utils/cache.py:58-63 | Reading drops exactly a present but expired entry, and nothing else. |
| Cache.RemainingTtl | utils/cache.py:180-184 | The result is never negative. It is 0 for a missing key and the seconds left for a live one. |
| Cache.Incremented | utils/cache.py:155-163 | A numeric value (int, bool or float) has the amount added. A missing key or a non-numeric value gives the amount. |
| Cache.CacheManager.constructor | utils/cache.py:22-24 | The manager starts with an empty store and the given default TTL. |
| Cache.CacheManager.Get | utils/cache.py:43-67 | `get` returns Lookup and leaves the store as Expire gives it. |
| Cache.CacheManager.Set | utils/cache.py:69-94 | `set` stores (value, now + ttl), with the TTL defaulting to the default, overwrites the key, touches no other key and returns true. |
| Cache.CacheManager.Delete | utils/cache.py:96-109 | `delete` returns true iff the key was present, expired or not, and removes it. |
| Cache.CacheManager.Exists | utils/cache.py:111-127 | `exists` follows the freshness rule of `get` and drops an expired entry. |
| Cache.CacheManager.Clear | utils/cache.py:129-140 | `clear` empties the store and returns true. |
| Cache.CacheManager.Increment | utils/cache.py:142-171 | `increment` returns Incremented and stores it with expiry now + ttl, without consulting the old expiry. |
| Cache.CacheManager.GetTtl | utils/cache.py:173-187 | `get_ttl` returns RemainingTtl and changes nothing. It is positive iff `get` would serve the key. |
| Cache.SetThenGet | utils/cache.py:86-90 | Round trip: after a set at t, a read returns the value before t + ttl and nothing from then on. |
| Cache.SetLeavesOtherKeys | utils/cache.py:86-90 | A set changes neither the read nor the TTL of any other key. |
| Cache.LookupStable | utils/cache.py:55-64 | Reading twice gives the same result, and the lazy drop is idempotent. |
| Cache.ExpiredStaysExpired | utils/cache.py:58 | An unreadable key stays unreadable at every later time. |
| Cache.TtlAgreesWithLookup | utils/cache.py:180-184 | The TTL is positive iff the key is readable. |
| Cache.IncrementTwice | utils/cache.py:155-168 | Two increments of a missing key add up. |
| Cache.CacheKey | utils/cache.py:238-240 | The parts are joined with ':'. One part gives itself, and two parts give a ':' b. |
| Cache.CacheKeyAppend | utils/cache.py:238-240 | Adding a part adds ':' and that part to the key, so the key of n parts is the parts in order, separated by ':'. |
| Cache.CacheKeyNotInjective | utils/cache.py:238-240 | ["a:b"] and ["a", "b"] give the same key. |
| Database.CacheEntryAt | utils/database.py:207-216 | An entry is returned iff it is present and its expiry is not strictly before now. |
| Database.Db.constructor | utils/database.py:104-129 | All tables start empty and the invariant holds. |
| Database.Db.CreateOrUpdateUser | utils/database.py:169-187 | An existing user has username, discriminator, avatar and update time overwritten, and no row is added. A new user gets exactly one row with the next id. Discord ids stay unique keys with distinct ids, and the other tables are unchanged. |
| Database.Db.LogCommandUsage | utils/database.py:190-204 | Exactly one row is appended with the next id, and no other table changes. |
| Database.Db.GetCacheEntry | utils/database.py:207-216 | The result is CacheEntryAt. A row that expired strictly before now is deleted, and no other table changes. |
| Database.Db.SetCacheEntry | utils/database.py:219-233 | Upsert of value and expiry now + ttl, with one row per key. No other table changes. |
| Database.Db.GetSetting | utils/database.py:236-241 | Returns the stored value, or the default for a missing key. |
| Database.Db.SetSetting | utils/database.py:244-255 | Upsert of value and description, where the description is overwritten even with None. No other table changes. |
| Database.SetThenGetCacheEntry | utils/database.py:207-233 | Round trip: the entry is returned up to and including now + ttl, and is gone after. |
| Database.GetCacheEntryStable | utils/database.py:207-216 | Reading again at the same time gives the same answer. |
| Database.ExpiryBoundaryDiffers | utils/database.py:211 | At the instant of expiry the cache table still returns the entry, while the in-memory cache does not. |
| RateLimit.KeyNotInjective | utils/rate_limit.py:148 | ("user:1", "x") and ("user", "1:x") share the in-memory key. |
| RateLimit.Prune | utils/rate_limit.py:157-162 | Pruning keeps exactly the times after the window start, each as often as it was logged, and never grows the list. |
| RateLimit.PruneAppend | utils/rate_limit.py:157-162 | Pruning a concatenation prunes each piece, so the kept times stay in the order of the log. |
| RateLimit.PruneSorted | utils/rate_limit.py:157-162 | Pruning keeps a sorted list sorted. |
| RateLimit.PruneInside | utils/rate_limit.py:157-162 | Pruning a list that lies inside the window changes nothing. |
| RateLimit.MemoryStep | utils/rate_limit.py:148-173 | A request is admitted iff fewer than max requests remain after pruning. Admission appends now and returns (true, 0). A rejection keeps the pruned list and returns retry_after = max(0, oldest kept + window - now). |
| RateLimit.MemoryStepKeepsInvariant | utils/rate_limit.py:151-173 | With non-decreasing time, the stored list stays sorted, at most max long and not in the future. |
| RateLimit.MemoryStepInsideWindow | utils/rate_limit.py:151-162 | After a check, every stored time is strictly after now - window. |
| RateLimit.MemoryRetryWithinWindow | utils/rate_limit.py:165-169 | A rejection's retry_after lies in (0, window]. |
| RateLimit.MemoryFullRejects | utils/rate_limit.py:165-169 | A full window rejects and leaves the list as it was. |
| RateLimit.InMemoryRateLimiter.constructor | utils/rate_limit.py:129-131 | The limiter starts with no keys. |
| RateLimit.InMemoryRateLimiter.IsAllowed | utils/rate_limit.py:133-173 | The decision and the stored window for the key are MemoryStep's, computed by a pruning loop. Every other key is unchanged. |
| RateLimit.InMemoryRateLimiter.ResetLimit | utils/rate_limit.py:175-180 | Removes only the key, and is a no-op if the key is absent. |
| RateLimit.DbStep | utils/rate_limit.py:68-108 | A request is admitted iff there is no full row within its window. A missing or elapsed row (now > reset_at, strictly) becomes (1, now + window). Otherwise admission adds one to the count. A rejection keeps the row, with retry = max(0, reset_at - now). |
| RateLimit.DbStepKeepsInvariant | utils/rate_limit.py:68-108 | With non-decreasing time, a row's count stays within 1..max and its reset time within now + window. |
| RateLimit.DbRetryWithinWindow | utils/rate_limit.py:91-101 | A rejection's retry_after lies in [0, window]. |
| RateLimit.DbWindowAdmits | utils/rate_limit.py:80-108 | Within one window the table admits min(requests, max - count) requests. |
| RateLimit.DatabaseRateLimiter.constructor | utils/rate_limit.py:38-39 | The limiter works on the given database. |
| RateLimit.DatabaseRateLimiter.IsAllowed | utils/rate_limit.py:41-108 | The decision and the new row are DbStep's, and only the rate-limit table changes. |
| RateLimit.DatabaseRateLimiter.ResetLimit | utils/rate_limit.py:110-123 | Removes only that row, and only the rate-limit table changes. |
| RateLimit.HybridAdmitsIffBoth | utils/rate_limit.py:213-228 | The hybrid admits iff the memory layer admits and, when use_db is set, the table admits too. |
| RateLimit.HybridMemoryRejectSkipsTable | utils/rate_limit.py:213-219 | A memory rejection is returned and leaves the table untouched. |
| RateLimit.HybridTableRejectKeepsMemoryRecord | utils/rate_limit.py:221-226 | A table rejection does not undo the request recorded in memory. |
| RateLimit.HybridRateLimiter.constructor | utils/rate_limit.py:186-189 | The limiter starts with a fresh memory layer over the given database. |
| RateLimit.HybridRateLimiter.IsAllowed | utils/rate_limit.py:191-228 | The decision and both new states are the memory step followed, when use_db is set and memory admitted, by the table step. |
| RateLimit.HybridRateLimiter.ResetLimit | utils/rate_limit.py:230-234 | Resets the memory key, and the table row only when use_db is set. |
| RateLimit.Outcome | utils/rate_limit.py:271-280 | Raises iff rejected and raise_exception is set. The exception carries retry_after, the resource and "Rate limit exceeded for {resource}". Otherwise the decision's boolean is returned. |
| RateLimit.CheckRateLimit | utils/rate_limit.py:246-280 | One hybrid step, turned into the outcome. |
| RateLimit.UserRateLimit | utils/rate_limit.py:283-312 | Same as check_rate_limit on "user:" + id, with a limit of 10 per 60 s by default. |
| RateLimit.ChannelRateLimit | utils/rate_limit.py:315-344 | Same on "channel:" + id, with 15 per 60 s by default. |
| RateLimit.GuildRateLimit | utils/rate_limit.py:347-376 | Same on "guild:" + id, with 50 per 60 s by default. |
| RateLimit.GlobalRateLimit | utils/rate_limit.py:379-401 | Same on "global", with 100 per 60 s by default. |
| RateLimit.CommandRateLimiter.constructor | utils/rate_limit.py:407-410 | The default per-minute limit is kept. |
| RateLimit.CommandRateLimiter.CheckCommandLimit | utils/rate_limit.py:412-440 | A hybrid step on ("user:" + id, "command:" + name) with a 60 s window. The limit is the default when none is given. |
| RateLimit.CommandRateLimiter.CheckGlobalCommandLimit | utils/rate_limit.py:442-459 | A hybrid step on ("global", "commands"), with 100 per 60 s by default. |
| Monitoring.Added | utils/monitoring.py:50-64 | Exactly one metric is appended to the list for the name, and the lists for other names are unchanged. |
| Monitoring.Latest | utils/monitoring.py:83-89 | None iff there is no metric under the name. |
| Monitoring.LatestAfterAdded | utils/monitoring.py:50-89 | The latest value is the one just added, and other names keep theirs. |
| Monitoring.Cleared | utils/monitoring.py:107-114 | A non-empty name removes only that name. A missing or empty name clears everything. |
| Monitoring.SumBounds | utils/monitoring.py:96-103 | The sum of n values within [lo, hi] lies within [n*lo, n*hi]. |
| Monitoring.Summarize | utils/monitoring.py:96-103 | count is the length and latest is the last value. average is the sum over the length. min and max are values of the list bounding every value, and min <= average <= max. |
| Monitoring.SummaryOf | utils/monitoring.py:91-105 | Exactly the non-empty names are summarised, each by Summarize of its values: count, latest, sum over length, and a min and max that occur in the list and bound it. |
| Monitoring.MetricsCollector.constructor | utils/monitoring.py:44-48 | The collector starts with no metrics. |
| Monitoring.MetricsCollector.AddMetric | utils/monitoring.py:50-64 | The store becomes Added(old, name, metric), with labels None giving {} and the timestamp now. |
| Monitoring.MetricsCollector.IncrementCounter | utils/monitoring.py:66-68 | Adds a counter metric with the amount. |
| Monitoring.MetricsCollector.SetGauge | utils/monitoring.py:70-72 | Adds a gauge metric. |
| Monitoring.MetricsCollector.ObserveHistogram | utils/monitoring.py:74-76 | Adds a histogram metric. |
| Monitoring.MetricsCollector.GetMetric | utils/monitoring.py:78-81 | Returns the list for the name, or []. |
| Monitoring.MetricsCollector.GetLatestValue | utils/monitoring.py:83-89 | None iff there is no metric, and otherwise the last metric's value. |
| Monitoring.MetricsCollector.ClearMetrics | utils/monitoring.py:107-114 | The store becomes Cleared(old, name). |
| Monitoring.HealthChecker.constructor | utils/monitoring.py:120-122 | The checker starts with no checks. |
| Monitoring.HealthChecker.RegisterCheck | utils/monitoring.py:124-126 | The check is registered, replacing any earlier check of that name. |
| Monitoring.HealthChecker.AddDatabaseCheck | utils/monitoring.py:128-141 | Registers "database" as a check that returns whether the database answers. |
| Monitoring.HealthChecker.AddApiCheck | utils/monitoring.py:143-145 | Registers the check under "api_" + name. |
| Monitoring.HealthChecker.CheckAll | utils/monitoring.py:147-156 | Every registered check gets its result, with a raising check giving false, and no other key appears. |
| Monitoring.HealthChecker.IsHealthy | utils/monitoring.py:158-161 | Healthy iff every check returns true, so true when there are none. |
| Monitoring.TallyBalanced | utils/monitoring.py:278-293 | For every command, total = success + failure. |
| Monitoring.TallyCommands | utils/monitoring.py:283-288 | A command appears in the statistics iff some recorded metric names it. |
| Monitoring.TallyAsWrittenCountsNoSuccess | utils/monitoring.py:285 | As written, when every label is 'True' or 'False', no command has any success counted. |
| Monitoring.CommandStatsSuccessExample | utils/monitoring.py:234-293 | One successful use recorded by increment_command_usage is a failure for the as-written statistics and a success for the corrected ones. |
| Monitoring.ErrorLabels | utils/monitoring.py:262-269 | The type label is always present. The message label is present iff a non-empty message is given, and then holds its first 100 characters. |
| Monitoring.BotMetrics.constructor | utils/monitoring.py:229-232 | A fresh, empty collector and health checker. |
| Monitoring.BotMetrics.IncrementCommandUsage | utils/monitoring.py:234-239 | Adds a counter under command_executions_total with command and success = str(success). |
| Monitoring.BotMetrics.RecordCommandDuration | utils/monitoring.py:241-246 | Adds a histogram under command_duration_seconds. |
| Monitoring.BotMetrics.IncrementApiCall | utils/monitoring.py:248-253 | Adds a counter under api_calls_total. |
| Monitoring.BotMetrics.RecordApiDuration | utils/monitoring.py:255-260 | Adds a histogram under api_duration_seconds. |
| Monitoring.BotMetrics.IncrementError | utils/monitoring.py:262-269 | Adds a counter under errors_total with ErrorLabels. |
| Monitoring.BotMetrics.RecordUserInteraction | utils/monitoring.py:271-276 | Adds a counter under user_interactions_total. |
| Monitoring.BotMetrics.GetCommandStats | utils/monitoring.py:278-293 | The loop computes the per-command tally, with success read as the label equal to str(True). For every command, total = success + failure. |
| Monitoring.UsageThenStats | utils/monitoring.py:234-293 | Round trip: one successful use on an empty collector reads back as total 1, success 1, failure 0. |
| Pollution.BandRankCountsThresholds | cogs/pollution.py:92-103 | The band's rank equals the number of thresholds 50/100/150/200/300 the AQI exceeds, so every value gets exactly one band. |
| Pollution.BandMonotone | cogs/pollution.py:92-103 | A higher AQI never gets a cleaner band. |
| Pollution.BandBoundariesInclusive | cogs/pollution.py:92-103 | Each bound belongs to the lower band: 50 is green and 51 yellow, and so on up to 300 and 301. |
| Pollution.BandOfEmojiStart | cogs/pollution.py:92-103 | Each band's emoji is identified by its first character. |
| Pollution.PollutionResponse | cogs/pollution.py:72-106 | A non-OK HTTP reply gives the connection message, and a status other than "ok" gives the spelling message. Otherwise the reply starts with the band's emoji and holds, each whole, the sentence with the city and AQI, the band's message and the reading's age. |
| Pollution.Answer | cogs/pollution.py:105 | The answer starts with the emoji and holds more after it. |
| Pollution.AnswerCarriesParts | cogs/pollution.py:105 | The answer holds the AQI sentence, the band message and the age of the reading, each whole. |
| Pollution.ResponseStartIdentifiesBand | cogs/pollution.py:72-105 | The error replies start with no band emoji, and an answer starts with its own band's emoji. |
| Pollution.GoodReadingExample | tests/test_pollution.py:63-94 | AQI 42 gives the green band and the "vacuum sealed coconut" message. |
| AppConfiguration.CheckDiscordConfig | config/app_config.py:74-86 | Outside testing mode, an empty token raises ConfigurationError with key DISCORD_BOT_TOKEN. Otherwise the record is kept. |
| AppConfiguration.EnvKeyOfKeyAttribute | config/app_config.py:141 | An attribute `<name>_key` whose name has no "k" is reported as the upper-cased name followed by `_API_KEY`. |
| AppConfiguration.EnvKeyWeather | config/app_config.py:141 | weatherapi_key is reported as WEATHERAPI_API_KEY. |
| AppConfiguration.FirstMissing | config/app_config.py:137-146 | None iff every required key is set. Otherwise it is a required key that is missing. |
| AppConfiguration.CheckApiConfig | config/app_config.py:116-146 | Outside testing mode both keys are required. The weather key is checked first, and each error carries the derived environment key. |
| AppConfiguration.NewAppConfig | config/app_config.py:244-277 | Supplied components are kept and only missing ones are built, the Discord and API ones from the environment. The Discord check's error comes first, then the API check's; the build fails only on one of them. The environment name and debug flag are the import-time defaults. |
| AppConfiguration.ValidateConfig | config/app_config.py:307-346 | True iff all four checks pass: token, weather key, currency key, and an environment in {development, staging, production}. An error is a ConfigurationError carrying the first failing check's key. |
| AppConfiguration.BuiltConfigFailsOnlyOnEnvironment | config/app_config.py:244-346 | Outside testing mode, a configuration that could be built passes validate_config iff its environment name is one of the three valid ones. The token and key checks cannot fail on it. |
| AppConfiguration.GetConfig | config/app_config.py:280-304 | Testing mode builds without validating. Otherwise a build or validation failure exits with status 1. |
| AppConfiguration.ConfigHolder.constructor | config/app_config.py:349 | No configuration is held at first. |
| AppConfiguration.ConfigHolder.GetGlobalConfig | config/app_config.py:352-362 | Built once and then returned unchanged. |
| AppConfiguration.ConfigHolder.ResetConfig | config/app_config.py:365-368 | Clears the holder, so the next call rebuilds. |
| Bot.TateLookaheadRedundant | bot.py:163 | The last lookahead of the tate pattern never rejects what the first two assertions accept. |
| Bot.TateStep | bot.py:154-183 | A reply is sent iff the author is not the bot and the message mentions tate. The reply is the cooldown message while the author cools down and the GIF otherwise. The cooldown message leaves the map unchanged, and the GIF sets the author's time to now. |
| Bot.TateStepTouchesOnlyAuthor | bot.py:166-183 | No entry other than the author's changes. |
| Bot.TateCooldownAfterGif | bot.py:170-183 | After a GIF at t, the author's next mention gets the cooldown message before t + 1800 and the GIF from then on. |
| Bot.GifsSpacedByCooldown | bot.py:170-183 | A GIF is sent only when the author's last one is at least 1800 s old. |
| Bot.TateResponder.constructor | bot.py:74 | The trigger map starts empty. |
| Bot.TateResponder.OnMessage | bot.py:154-183 | The message sent and the new map are TateStep's. |
| Bot.Chunks | bot.py:435 | Each chunk is 1 to size long, every chunk but the last is full, and there are none iff the message is empty. |
| Bot.ChunksConcat | bot.py:435 | Concatenating the chunks gives the message. |
| Bot.SendLanguages | bot.py:424-446 | The first chunk is the response and the rest are follow-ups, in order. Together they are the joined language list. |
| Bot.SanitizeCurrency | bot.py:230-238 | The result is the first three letters of the argument, in order and upper-cased: at most 3 characters, all A-Z. |
| Bot.KeepCapitalsOfUpper | bot.py:231-237 | Removing non-capitals after upper-casing equals upper-casing after removing non-letters. |
| Bot.SanitizeCurrencyIdempotent | bot.py:230-238 | Cleaning a cleaned code changes nothing. |
| Bot.SanitizeCurrencyKeepsCode | bot.py:230-238 | A three-capital code passes unchanged. |
| Bot.SanitizeCurrencyUpperCases | bot.py:230-238 | Three lower-case letters are upper-cased. |
| Bot.EncodeSpaces | bot.py:286 | Writing spaces as "%20" leaves no space, never shortens, and gives "" iff the input is "". |
| Bot.EncodeSpacesRoundTrip | bot.py:286 | Round trip: for text without '%', decoding "%20" back to spaces recovers it. |
| Bot.SanitizeLocationDecodes | bot.py:286 | A cleaned location has no space and decodes to the kept `[-\w\s]` characters. |
| Bot.LocationCommand | bot.py:286-291 | Refused, with the command's message, iff no character of the location is in `[-\w\s]`. Otherwise the query carries the cleaned, non-empty location. /time is the same at bot.py:373-378. |
| Bot.DefaultLocationUnchanged | bot.py:280-286 | The default "Bangkok" is queried unchanged. |

## Left out

- Redis branches, the `cached`/`api_cached` decorators, `init_cache` and the module-level cache accessors are not modelled. These are a foreign service, async plumbing and Python `hash()`. The `cache_*` functions only delegate to the manager.
- SQLAlchemy engines, sessions, commits and `init_db` are not modelled. Each repository call is one atomic update of map-shaped tables, the `guilds` table is not modelled, and `get_user_by_discord_id` is folded into `CreateOrUpdateUser`.
- Locks are not modelled (utils/rate_limit.py:131, 150; utils/monitoring.py:46). Every call is atomic.
- Wall-clock reads are the `now` parameter, in whole seconds. Float arithmetic on times is therefore exact integer arithmetic, and `retry_after` is an integer. Metric values are reals.
- Python's `\w`, `\d`, `str.upper` and `str.lower` are modelled on ASCII only. Unicode letters and digits are not word characters here, and case mapping beyond A-Z is not modelled.
- `validate_url`, `sanitize_url` and `sanitize_html` rest on urllib and bleach. `validate_and_sanitize_input` receives the URL check and rebuild as parameters. `remove_markdown_injection` and `safe_format_string` are not modelled.
- `PerformanceMonitor` (psutil, uptime, timing decorators), `export_metrics` and `save_metrics_to_file` are not modelled. These are OS and file I/O. The bot counters write directly to a collector.
- The configuration defaults read from the environment at import time (`AppConfig.environment`, `AppConfig.debug`, `DatabaseConfig`, `LoggingConfig`, `CacheConfig`, `SecurityConfig`) are taken as one input record (`ImportDefaults`); the testing-mode test and the Discord and API settings read the environment of the call. `APIConfig.groq_api_key` defaults to the tuple `(None,)` because of a trailing comma (config/app_config.py:113); the model uses the value read from the environment, which is what `AppConfig` passes anyway. The accessors `get_discord_token`, `get_environment`, `is_debug` and `get_version` only read fields and are not modelled.
- AppConfiguration.ValidateConfig: its token and key checks cannot fail on a configuration that `get_config` built outside testing mode, since construction already raised. BuiltConfigFailsOnlyOnEnvironment states this; the checks are still modelled for configurations built by hand.
- In `/pollution` the HTTP request, the URL sanitising of the city (`utils/helpers.py` is not part of this model) and the humanised age are inputs. An AQI that the service reports as a non-number is not modelled.
- Bot.LocationCommand: the model returns the cleaned location rather than the full request URL with the API key. The HTTP calls and the replies built from their answers, the float amount of `/exchangerate`, and the commands `learn` and `translate` are not modelled.
- Sending to Discord is modelled by returning the text that would be sent.
- The fixed-window table limiter resets a row's count to 1, not 0, when its window has passed (utils/rate_limit.py:83), and the request that finds the window over is admitted. The model follows the code. The window has passed only when `now > reset_at`, strictly.
- RateLimit.MemoryStep: requires max_requests >= 1. The code accepts 0: it then rejects whenever the pruned list is non-empty and raises IndexError on `[0]` when it is empty (utils/rate_limit.py:165-167). That exception path is not modelled.
- Monitoring.HealthChecker.AddDatabaseCheck: the database's answer is a parameter fixed when the check is registered. The code queries the database again on every `check_all` (utils/monitoring.py:130-139); the model does not capture answers that change between checks.

## Findings

| source | as written | input that shows it | evidently intended | confidence | as-written member | corrected member |
|---|---|---|---|---|---|---|
| utils/security.py:28 | `re.match` with `^\d{17,20}$`, where `$` also matches before a final newline | "123456789012345678\n" is accepted and returned with the newline | accept only 17 to 20 digits | high; not executed | Security.DiscordIdAsWrittenAcceptsNewline | Security.ValidateDiscordId |
| utils/security.py:406-411 | the keyword patterns are upper case but are searched, without ignoring case, in the lower-cased text | "1 OR 1=1" is not flagged, though tests/test_security.py:290 expects it to be | keywords matched whatever their case | high; not executed | SecurityPatterns.SqlAsWrittenMissesTautology | SecurityPatterns.SqlCorrectedFlagsTautology |
| utils/security.py:314-316 | `name[:255-len(ext)] + ext`, where an extension longer than 255 makes the bound negative | "a." followed by 300 'x' stays 301 characters long | result at most 255 characters | high; not executed | Security.FilenameAsWrittenExceedsLimit | Security.FilenameCorrectedWithinLimit |
| utils/monitoring.py:285 | the success label, written as `str(success)` ('True'/'False') at utils/monitoring.py:236, is compared with 'true' | one `increment_command_usage("ping", True)` is reported as a failure | successful uses counted as successes | high; not executed | Monitoring.TallyAsWrittenCountsNoSuccess | Monitoring.BotMetrics.GetCommandStats |
