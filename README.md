# calgo core in Dafny

calgo is a command-line tool that adds events to a Google Calendar. This
project models its core in Dafny and proves properties about the model.
The core has four parts:

- the natural-language date parser and the duration parser (`internal/calendar/datetime.go`);
- the calendar client (`internal/calendar/client.go`). It validates event parameters, builds the event sent to the Calendar API, reads back the created event and maps API failures onto the package's sentinel errors;
- the OAuth 2.0 authenticator (`internal/auth/oauth.go`). It loads credentials, keeps the token file, falls back to the browser flow and answers the local redirect callback;
- the configuration loader (`internal/config/config.go`). It layers defaults, a YAML file, environment variables and command-line flags, then validates the result.

Modules and files:

| file | module | models |
|---|---|---|
| `wrappers.dfy` | `Wrappers` | `Option` and `Result` |
| `text.dfy` | `Text` | `strings.TrimSpace`, `strings.ToLower` (on ASCII and the two runes Go lowers into ASCII), `strconv.Atoi`, `strconv.Itoa`, int64 bounds and wrap-around |
| `civil.dfy` | `Civil` | proleptic Gregorian dates, `time.Time` as nanoseconds since the Unix epoch plus a location, `Time.Add`, `Time.IsZero` |
| `patterns.dfy` | `Patterns` | the three regular expressions of `datetime.go`, as matchers proved sound and complete |
| `goduration.dfy` | `GoDuration` | `time.ParseDuration`, as far as calgo reaches it |
| `rfc3339.dfy` | `Rfc3339` | `time.Parse` and `Time.Format` with `time.RFC3339` and `"2006-01-02"` |
| `datetime.dfy` | `DateTime` | `ParseTime` and its stages |
| `durations.dfy` | `Durations` | `ParseDuration` |
| `client.dfy` | `CalendarClient` | the calendar client |
| `auth.dfy` | `Auth` | the authenticator, as the class `Authenticator` over a token-file map |
| `config.dfy` | `Config` | `Load`, `Validate`, `ValidateCredentialsExist`, `GetConfigDir` |

The model treats the outside world as inputs:

- The clock, the `TZ` variable and the time-zone database form a `World` value.
- The two fallback parsers of `parseStandard` form a `Fallback` value. These are the `dateparse` library and `time.ParseInLocation` with a layout.
- The Calendar API insert call is a `Service` function. The RFC 3339 formatter is a `format` function.
- The file system is a map from paths to file contents.
- The listener, the browser, the code exchange and the token refresh form the `Auth.World` value.

Errors are datatypes. Each package's errors have a `Message` function that gives the text Go would print, except for the parts listed under "## Left out" (text that comes from a library the model leaves out). A `Wrapped` function gives the sentinel error that `errors.Is` would find, if there is one.

## Model

| member | source | states |
|---|---|---|
| Text.TrimLeftSpace | internal/calendar/datetime.go:34 | the result is a suffix of the input; all that was cut is white space; the result does not start with white space |
| Text.TrimRightSpace | internal/calendar/datetime.go:34 | the result is a prefix of the input; all that was cut is white space; the result does not end with white space |
| Text.TrimSpace | internal/calendar/datetime.go:34 | the result is the input with its leading and trailing white space cut: the slice after the leading white space, followed only by white space, and neither starting nor ending with white space |
| Text.TrimSpaceEmpty | internal/calendar/datetime.go:34-37 | trimming gives the empty string exactly when the input is all white space |
| Text.TrimSpaceIdempotent | internal/calendar/datetime.go:34 | trimming a trimmed string changes nothing |
| Text.ToLower | internal/calendar/datetime.go:90 | lower-casing keeps the length and maps every character on its own; no upper-case ASCII letter survives |
| Text.Atoi | internal/calendar/datetime.go:126 | only an optionally signed, non-empty run of decimal digits parses; unsigned or with '+' it reads as the digits' value, with '-' as its negation, exactly when that fits in int64 |
| Text.FormatInt | internal/calendar/client.go:166 | the text starts with '-' exactly for a negative number, and the digits after the sign spell its absolute value with no leading zero (as `%d` writes it) |
| Text.AtoiFormatInt | internal/calendar/client.go:166 | formatting any int64 in decimal and parsing it back gives the same number |
| Text.WrapInt64 | internal/calendar/datetime.go:267 | two's-complement wrap-around: the result is in int64, is congruent to the input modulo 2^64, and equals it when it already fits |
| Civil.DaysIn | internal/calendar/datetime.go:171-173 | a month has 28 to 31 days, and 29 exactly for February of a leap year |
| Civil.NextDayCounts | internal/calendar/datetime.go:171 | the next calendar day is exactly one day number later |
| Civil.DaysInYear | internal/calendar/datetime.go:171 | the month lengths of a year add up to 366 in a leap year and 365 otherwise |
| Civil.DaysOfYearOne | internal/calendar/client.go:104 | January 1 of year 1, the date of the zero time, is day -719162 counted from 1970-01-01 |
| Civil.Add | internal/calendar/client.go:73 | adding a duration keeps the location and moves the instant by exactly that many nanoseconds |
| Patterns.MatchClock | internal/calendar/datetime.go:180 | a match of `^(\d{1,2}):(\d{2})(?::(\d{2}))?$` yields groups that spell the input back |
| Patterns.MatchClockComplete | internal/calendar/datetime.go:180 | every string of that shape matches, with exactly its own groups |
| Patterns.MatchIn | internal/calendar/datetime.go:118 | a match of the "in N units" expression yields groups that spell the input back |
| Patterns.MatchInComplete | internal/calendar/datetime.go:118 | every string of that shape matches, with exactly its own groups |
| Patterns.MatchDay | internal/calendar/datetime.go:147 | a match of the "today/tomorrow [at] H:MM[:SS]" expression yields groups that spell the input back |
| Patterns.MatchDayComplete | internal/calendar/datetime.go:147 | every string of that shape matches, with exactly its own groups |
| Patterns.DayTextNoUpper | internal/calendar/datetime.go:90-110 | lower-casing a matched day phrase leaves it unchanged, so matching after ToLower loses nothing |
| GoDuration.ParseGoDuration | internal/calendar/datetime.go:271 | a parsed duration always fits in int64 nanoseconds |
| GoDuration.LeadingInt | internal/calendar/datetime.go:271 | the leading digits are read into a value of at most 2^63, or refused when they overflow; what is left does not start with a digit |
| GoDuration.Component | internal/calendar/datetime.go:271 | one number-and-unit component is at most 2^63 nanoseconds and consumes at least one character |
| GoDuration.UnitNames | internal/calendar/datetime.go:271 | the unit suffixes are exactly ns, us, µs, μs, ms, s, m and h, with their sizes in nanoseconds |
| GoDuration.OneComponent | internal/calendar/datetime.go:271 | a signed integer followed by one unit parses to integer times unit, and fails when that overflows int64 |
| GoDuration.NotDurations | internal/calendar/datetime.go:271-274 | "invalid", the empty string and a bare "1" are not durations |
| Rfc3339.ParseFormatDateTime | internal/calendar/client.go:81-85 | an RFC 3339 stamp written by the formatter is read back to the same fields |
| Rfc3339.ParseFormatDate | internal/calendar/client.go:120 | a date written as YYYY-MM-DD is read back to the same date |
| Rfc3339.FormatParseDate | internal/calendar/client.go:120 | every accepted YYYY-MM-DD text is the formatting of the date it reads as |
| Rfc3339.StampTime | internal/calendar/client.go:117 | the instant of a stamp is its wall-clock time minus its UTC offset; the zone is UTC for "Z" and a fixed zone of the offset otherwise (Go may pick Local instead, see Left out) |
| Rfc3339.ParseRfc3339 | internal/calendar/client.go:117 | a time is read exactly when the text is an RFC 3339 date-time, which has a 'T' at position 10; its zone is UTC or a fixed offset |
| Rfc3339.ParseDateOnly | internal/calendar/client.go:120 | a time is read exactly when the text is a YYYY-MM-DD date, and it is the instant of 00:00:00 UTC on that date |
| Rfc3339.DateOnlyIsUtc | internal/calendar/client.go:120 | a time read from a plain date is in UTC |
| Rfc3339.FormatDateTime | internal/calendar/client.go:81-85 | the text starts with the YYYY-MM-DD date and a 'T', with ':' between hour, minute and second |
| DateTime.FailureQuotesInput | internal/calendar/datetime.go:244 | the parse failure message quotes the input and wraps ErrInvalidDateFormat |
| DateTime.LoadLocation | internal/calendar/datetime.go:61-82 | "" and "UTC" give UTC, "Local" gives the local zone, a named zone must exist in the database and may not contain ".." |
| DateTime.GetLocation | internal/calendar/datetime.go:61-82 | the zone is named after the explicit zone if set, else TZ if set, else "Local"; it fails exactly when the lookup of the name in use fails, and the error names it and says whether it came from TZ |
| DateTime.ExplicitZoneIgnoresTz | internal/calendar/datetime.go:62-68 | with an explicit zone, the TZ variable has no effect and the zone keeps its name |
| DateTime.ClockValue | internal/calendar/datetime.go:188-206 | a clock reads exactly when hour < 24, minute < 60 and second < 60, with those values |
| DateTime.InUnitPrefixes | internal/calendar/datetime.go:134-141 | units starting with "hour" or "hr" are hours and those starting with "min" are minutes |
| DateTime.ParseInDuration | internal/calendar/datetime.go:120-144 | the corrected rule of the second Findings row (as written: ParseInDurationAsWritten): a result is never before now and keeps now's location; only an input of the "in N units" shape gives one |
| DateTime.ParseInDurationAsWritten | internal/calendar/datetime.go:120-144 | as written: a result comes only from the "in N units" shape and keeps now's location; wherever the corrected rule gives a result, it gives the same one |
| DateTime.InDurationOf | internal/calendar/datetime.go:120-144 | "in N units" gives now plus N units when that fits in int64 nanoseconds, and nothing otherwise |
| DateTime.InDurationAsWrittenOf | internal/calendar/datetime.go:120-144 | as written, "in N units" gives now plus the int64-wrapped product of N and the unit |
| DateTime.InDurationWraps | internal/calendar/datetime.go:142 | when the product overflows, the code as written returns a wrapped offset, while the corrected parser refuses |
| DateTime.SmallestInWrap | internal/calendar/datetime.go:142 | "in 2562048 hours" gives an instant before now as written, and nothing when corrected |
| DateTime.ParseDayWithTime | internal/calendar/datetime.go:149-176 | a result is in the requested location and comes only from an input of the day-phrase shape |
| DateTime.ParseRelative | internal/calendar/datetime.go:89-116 | a result is in the given location and comes only from a lower-cased input starting with "in ", "today" or "tomorrow"; an "in " result is never before now (corrected rule) |
| DateTime.ParseTimeOnly | internal/calendar/datetime.go:182-209 | a result comes only from an H:MM[:SS] input whose fields are in range |
| DateTime.OutOfRangeClocks | internal/calendar/datetime_test.go:481-497 | "24:00", "14:60" and "14:00:60" are not read as a time of day |
| DateTime.NegativeHourRefused | internal/calendar/datetime_test.go:489 | "-1:00" is not read as a time of day |
| DateTime.FirstLayout | internal/calendar/datetime.go:238-242 | a found layout index is in range and that layout reads the input to the returned time |
| DateTime.FirstLayoutIsFirst | internal/calendar/datetime.go:238-242 | no earlier layout reads the input, and nothing is found exactly when no layout reads it |
| DateTime.ParseStandard | internal/calendar/datetime.go:212-245 | the only failure is "could not parse" with the input quoted |
| DateTime.StandardFails | internal/calendar/datetime.go:212-245 | the standard parser fails exactly when dateparse and every layout fail |
| DateTime.ParseInZone | internal/calendar/datetime.go:40-56 | a failure after the zone is resolved is always "could not parse" of the trimmed input |
| DateTime.ParseTime | internal/calendar/datetime.go:33-57 | "empty input" is returned exactly for all-white-space input; any other failure is the zone error when the zone cannot be loaded, and otherwise "could not parse" of the trimmed input |
| DateTime.BlankInputRefused | internal/calendar/datetime.go:34-37 | an all-white-space input is refused with "empty input" |
| DateTime.OnlyBlankInputIsEmpty | internal/calendar/datetime.go:34-37 | any other input never yields "empty input" |
| DateTime.ZoneErrorSecond | internal/calendar/datetime.go:39-43 | a non-blank input with an unknown zone fails with the zone error, which wraps ErrInvalidTimezone |
| DateTime.EarlyStagesWin | internal/calendar/datetime.go:45-56 | when a relative phrase or a clock reads the input, the fallback parsers are never consulted |
| DateTime.ClockIsNotRelative | internal/calendar/datetime.go:89-115 | a bare clock is not taken for a relative phrase |
| DateTime.RelativeIn | internal/calendar/datetime.go:90-95 | an input starting with "in " is read by the in-duration rule on the lower-cased input and the current time |
| DateTime.RelativeDay | internal/calendar/datetime.go:97-111 | "today…" and "tomorrow…" are read by the day rule with an offset of 0 and 1 days |
| DateTime.InResolves | internal/calendar/datetime.go:33-56 | "in N units" parses to now plus N units in the resolved location |
| DateTime.DayResolves | internal/calendar/datetime.go:33-56 | "today/tomorrow at H:MM" parses to that clock on today's or the next date in the resolved location |
| DateTime.TimeOnlyResolves | internal/calendar/datetime.go:33-56 | "H:MM[:SS]" parses to that clock today in the resolved location |
| Durations.ParseDuration | internal/calendar/datetime.go:259-277 | the corrected rule of the first Findings row (as written: ParseDurationAsWritten): a duration always fits in int64; a failure of non-blank input is "invalid duration" of the trimmed input |
| Durations.ParseDurationAsWritten | internal/calendar/datetime.go:259-277 | as written: a duration fits in int64; a failure of non-blank input quotes the trimmed input; it agrees with the corrected rule wherever that succeeds, and differs from it only on bare integers |
| Durations.EmptyExactlyWhenBlank | internal/calendar/datetime.go:260-263 | "empty duration" is returned exactly for all-white-space input |
| Durations.BareIntegersAreMinutes | internal/calendar/datetime.go:266-268 | a trimmed input that Atoi reads is taken as that many minutes, without an overflow |
| Durations.BareAndSuffixed | internal/calendar/datetime.go:266-271 | "N" and "Nm" are accepted together, and both give N minutes |
| Durations.Bare | internal/calendar/datetime.go:266-268 | "N" gives N minutes when that fits, and "invalid duration" otherwise |
| Durations.Suffixed | internal/calendar/datetime.go:271-276 | "Nm" gives N minutes through the Go duration parser when that fits, and "invalid duration" otherwise |
| Durations.BareAsWritten | internal/calendar/datetime.go:266-268 | as written, "N" gives N minutes wrapped to int64 |
| Durations.SuffixedAsWritten | internal/calendar/datetime.go:271-276 | as written, "Nm" is read by the Go duration parser with its overflow check |
| Durations.BareIntegerWraps | internal/calendar/datetime.go:266-268 | when N minutes overflows, the code as written returns a wrapped value while "Nm" is refused |
| Durations.BareIntegerRefused | internal/calendar/datetime.go:266-268 | the corrected parser refuses both "N" and "Nm" when N minutes overflows |
| Durations.SmallestWrap | internal/calendar/datetime.go:266-268 | "153722868" is the first bare count to wrap: as written it gives -9223371993709551616 ns |
| Durations.HalfAnHour | internal/calendar/datetime_test.go:406-416 | "30" and "30m" are both thirty minutes |
| Durations.TwoHours | internal/calendar/datetime_test.go:417-421 | "2h" is two hours |
| Durations.NinetySeconds | internal/calendar/datetime_test.go:427-431 | "90s" is ninety seconds |
| Durations.InvalidRefused | internal/calendar/datetime_test.go:437-441 | "invalid" is refused with "invalid duration" quoting it |
| Durations.InvalidQuotesInput | internal/calendar/datetime.go:273 | the invalid-duration message quotes the input |
| CalendarClient.Message | internal/calendar/client.go:16-22 | every error that wraps a sentinel prints that sentinel's text first, then ": " |
| CalendarClient.OtherCodeReadsBack | internal/calendar/client.go:166 | the "(code: N)" part of an unclassified API error prints the HTTP status exactly |
| CalendarClient.NewClient | internal/calendar/client.go:52-66 | a service failure is returned as the error; otherwise the client uses the calendar given, or "primary" when that is empty |
| CalendarClient.ValidateEventParams | internal/calendar/client.go:99-113 | no error exactly when the title is set, the start is not the zero time and the duration is positive; a missing title is always the error reported |
| CalendarClient.ValidationOrder | internal/calendar/client.go:99-113 | parameters are valid exactly when the title is set, the start is not the zero time and the duration is positive; each error is reported exactly when the earlier checks pass |
| CalendarClient.EndTime | internal/calendar/client.go:73 | the end keeps the start's location and is after the start whenever the duration is positive |
| CalendarClient.NewEvent | internal/calendar/client.go:75-88 | the event carries the title, description and location, the formatted start and end, and the start's zone name on both ends |
| CalendarClient.CreateEvent | internal/calendar/client.go:69-96 | invalid parameters give the validation error; a success means the service inserted exactly the built event |
| CalendarClient.InvalidNeverSent | internal/calendar/client.go:70-72 | with invalid parameters, the outcome does not depend on the service, and the error wraps ErrInvalidEventTime |
| CalendarClient.FailureTranslated | internal/calendar/client.go:90-93 | a failed insert is returned as the translated API error |
| CalendarClient.EchoedEventKeepsTimes | internal/calendar/client.go:69-96 | when the service echoes the times it was sent, the result has the original start and the start plus the duration |
| CalendarClient.ReadEventTime | internal/calendar/client.go:117-131 | an RFC 3339 date-time is used when it parses; otherwise the all-day date is read |
| CalendarClient.ParseEventResult | internal/calendar/client.go:116-144 | the result is OK exactly when both ends read; the start is checked first; the event's fields are copied |
| CalendarClient.StampReadsBack | internal/calendar/client.go:117 | a date-time written in RFC 3339 is read back to the instant it stands for |
| CalendarClient.AllDayReadsMidnight | internal/calendar/client.go:119-121 | an all-day event reads as midnight UTC of its date |
| CalendarClient.ContainsQuotaError | internal/calendar/client.go:173-180 | the quota check holds exactly when some listed reason is quotaExceeded, rateLimitExceeded or userRateLimitExceeded |
| CalendarClient.WrapApiError | internal/calendar/client.go:147-170 | every failure is reported under a sentinel; a failure that is no API error keeps its text; only code 400 is an invalid request; exactly the unlisted codes keep the API's message and code |
| CalendarClient.SentinelOfFailure | internal/calendar/client.go:147-170 | every failure wraps one sentinel: 429 and 403 with a quota reason give quota; 401 and any other 403 give permission; 404 gives not-found; 400, every other code and a failure that is no API error give creation failure |
| CalendarClient.BadRequestKeepsMessage | internal/calendar/client.go:152-153 | a 400 failure is an invalid request whose text ends with the API's message |
| CalendarClient.OtherCodeKeepsMessage | internal/calendar/client.go:166 | an unclassified status keeps the API's message and its code |
| CalendarClient.OtherFailureKept | internal/calendar/client.go:169 | a failure that is not an API error keeps its text after the creation-failed prefix |
| Auth.Message | internal/auth/oauth.go:26-30 | every error that wraps a sentinel prints that sentinel's text first, then ": " |
| Auth.LoadTokenFrom | internal/auth/oauth.go:213-225 | a token loads exactly when the file exists and holds JSON; a missing file is its own error |
| Auth.LoadAfterSave | internal/auth/oauth.go:213-239 | a saved token loads back unchanged |
| Auth.EmptyObjectLoadsInvalid | internal/auth/oauth_test.go:485-505 | a file holding `{}` loads as a token, and that token is not valid |
| Auth.ClearTokenFrom | internal/auth/oauth.go:260-265 | clearing succeeds when the file is absent or removal works; then the file is gone; a failure changes nothing; other files are untouched |
| Auth.ClearTwice | internal/auth/oauth_test.go:895-917 | clearing twice succeeds both times, whatever the second removal would report |
| Auth.HandleCallback | internal/auth/oauth.go:175-199 | the code is delivered exactly when the query has a non-empty code, and then the status is 200 |
| Auth.CallbackWithoutCode | internal/auth/oauth.go:180-190 | without a code the reply is 400, carrying the provider's error or "no authorization code received" |
| Auth.CodeWinsOverError | internal/auth/oauth.go:177-199 | with a code, an error parameter changes nothing, and the reply is HTML |
| Auth.RedirectFor | internal/auth/oauth.go:122 | the redirect URL starts with "http://localhost:" |
| Auth.RedirectNamesPort | internal/auth/oauth.go:122 | the redirect URL ends with the listening port, which reads back exactly |
| Auth.WaitOutcome | internal/auth/oauth.go:138-153 | the flow yields a token exactly when a code arrives and its exchange succeeds, and then that token |
| Auth.WaitFailures | internal/auth/oauth.go:138-153 | a cancelled context is returned as itself; every other failure wraps ErrAuthenticationFailed |
| Auth.AuthenticateSpec | internal/auth/oauth.go:109-162 | a successful flow stores its token in the token file; a failed flow leaves the files as they were |
| Auth.GetTokenSpec | internal/auth/oauth.go:64-96 | a token is only returned once credentials are loaded |
| Auth.CredentialsFailureStops | internal/auth/oauth.go:65-69 | unreadable or malformed credentials stop GetToken with that error, changing nothing |
| Auth.CredentialsReadOnce | internal/auth/oauth.go:65 | once credentials are loaded, the credentials file is not read again |
| Auth.ValidTokenReturned | internal/auth/oauth.go:72-76 | a valid saved token is returned as it is, without refresh or browser flow, and no file changes |
| Auth.RefreshedTokenReturned | internal/auth/oauth.go:78-90 | an expired token that refreshes gives the new token, which is saved; a failed save only warns |
| Auth.FallsBackToBrowser | internal/auth/oauth.go:72-95 | with no usable saved token and no refresh, GetToken is the browser flow on the loaded credentials |
| Auth.EmptyObjectNotUsed | internal/auth/oauth.go:72-95 | a `{}` token file is never returned as the token |
| Auth.FlowSaveOnlyWarns | internal/auth/oauth.go:155-161 | a failed save does not change the flow's result; the flow succeeds exactly when the listener opens, a code arrives and the exchange works |
| Auth.Authenticator.constructor | internal/auth/oauth.go:40-45 | a new authenticator keeps both paths and has no credentials loaded |
| Auth.Authenticator.LoadCredentials | internal/auth/oauth.go:48-61 | parsed credentials are stored; a missing or malformed file is reported with its cause and changes nothing |
| Auth.Authenticator.LoadToken | internal/auth/oauth.go:213-225 | at the authenticator's own path: a token loads exactly when the file exists and is JSON; a missing file is the open error naming the path, text that is not JSON the parse error with its cause, and a saved token or `{}` is read back |
| Auth.Authenticator.SaveToken | internal/auth/oauth.go:228-239 | the token file now holds the token unless the write failed, which is reported |
| Auth.Authenticator.ClearToken | internal/auth/oauth.go:260-265 | the token files change exactly as clearing the token path prescribes |
| Auth.Authenticator.HasSavedToken | internal/auth/oauth.go:268-271 | true exactly when loading fails with anything but the missing-file error, so a `{}` file counts as saved |
| Auth.Authenticator.Authenticate | internal/auth/oauth.go:109-162 | the new state and the result are those of the flow specification |
| Auth.Authenticator.GetToken | internal/auth/oauth.go:64-96 | the new state and the result are those of the GetToken specification, so every lemma about it holds of the method |
| Auth.Authenticator.GetClient | internal/auth/oauth.go:99-106 | a client is built exactly when GetToken succeeds, around that token and the loaded configuration |
| Auth.ClearTokenTwice | internal/auth/oauth_test.go:895-917 | clearing twice in a row succeeds both times and leaves no saved token |
| Config.DefaultConfig | internal/config/config.go:31-36 | the defaults are calendar "primary" and 30 minutes, with every path and the zone empty |
| Config.FlagLayer | internal/config/config.go:94-98 | a flag override applies exactly when it is set and is not an empty string, and then with its own value |
| Config.Load | internal/config/config.go:50-107 | the loop over the overrides yields exactly the configuration that the layered specification gives |
| Config.EnvValue | internal/config/config.go:84-91 | the environment has a key exactly when its upper-cased name or its bound variable is set to non-empty text; the upper-cased name is read first |
| Config.AutomaticNames | internal/config/config.go:84-85 | the upper-cased names of the five keys are CREDENTIALS_PATH, TOKEN_PATH, CALENDAR_ID, DEFAULT_DURATION and TIMEZONE |
| Config.AutomaticNameFirst | internal/config/config.go:84-91 | without a flag, CALENDAR_ID decides the calendar ID whatever GOOGLE_CALENDAR_ID and the file say |
| Config.Resolve | internal/config/config.go:58-98 | a key has no value exactly when no flag, no environment variable, no file entry and no default gives one |
| Config.Unmarshal | internal/config/config.go:100-104 | decoding fails exactly when the default duration resolves to non-empty text that is no decimal integer, and the error names that key |
| Config.FileLayer | internal/config/config.go:71-81 | only a file that does not parse is an error; a readable file gives its settings, and a missing or unreadable one gives none |
| Config.LoadSpec | internal/config/config.go:50-107 | over text, number and nil values, Load fails only with a parse error of the file or a decoding error of the duration; a file parse error is returned as it is |
| Config.FlagWins | internal/config/config.go:94-98 | an applied flag decides its key |
| Config.EnvBeatsFile | internal/config/config.go:84-91 | without a flag, the environment value (the upper-cased key, else the bound variable) decides its key |
| Config.FileBeatsDefault | internal/config/config.go:58-81 | without a flag or an environment value, the file decides, and otherwise the default |
| Config.SkippedFlagMasksNothing | internal/config/config.go:94-98 | an empty or nil override gives the same result as no override |
| Config.NothingGivesDefaults | internal/config/config.go:50-107 | with no file, no environment and no flags, Load returns the defaults |
| Config.LoadedCalendarId | internal/config/config.go:50-107 | the loaded calendar id is the flag's, else the environment's (CALENDAR_ID, then GOOGLE_CALENDAR_ID), else the file's, else "primary" |
| Config.Message | internal/config/config.go:39-43 | every error that wraps one of the three sentinels prints that sentinel's text first |
| Config.NotFoundNamesPath | internal/config/config.go:123-126 | the missing-credentials message ends with ": " and the path, as "%w: %s" writes it |
| Config.Validate | internal/config/config.go:110-120 | validation passes exactly when both paths are set; a missing credentials path is always the error reported |
| Config.ValidationOrder | internal/config/config.go:110-120 | validation passes exactly when both paths are set, and reports the credentials path first |
| Config.ValidateCredentialsExist | internal/config/config.go:123-128 | passes exactly when the credentials file exists, and otherwise names that path |
| Config.GetConfigDir | internal/config/config.go:131-137 | an unknown home directory is the error; a known one always gives a directory |
| Config.ConfigDirUnderHome | internal/config/config.go:131-137 | the directory is the home directory joined with ".config/calgo" |

## Left out

- FormatTime and FormatTimeShort (datetime.go:248-255) are layout formatting with no logic of calgo's own. Only the RFC 3339 layout, which CreateEvent uses, is modelled.
- The `dateparse` library and `time.ParseInLocation` with a layout are the parameter `Fallback`. The model proves the order in which they are tried, not what they accept.
- The zone database, the `TZ` variable and `time.Now` are fields of `DateTime.World`. The same holds for turning a local date and clock into an instant (`time.Date`) and reading today's date in a zone.
- Rfc3339.StampTime: the instant is exact, but for a numeric offset Go's `time.Parse` returns the `Local` location when Local's offset at that instant equals the stamp's; the model always gives a fixed zone of that offset, since Local's offsets are not part of the model.
- Text.ToLower: non-ASCII capitals other than U+0130 and U+212A are kept ('É' stays 'É', where Go gives 'é'). No pattern of the parser can tell the difference, as they accept ASCII only.
- DateTime.ParseInDuration: this is the corrected rule of the second Findings row; the code as written is DateTime.ParseInDurationAsWritten, whose offset wraps on int64 overflow and can lie before now.
- DateTime.ParseRelative: uses the corrected in-duration rule, so its "in " results are never before now; as written they can be, through DateTime.ParseInDurationAsWritten.
- DateTime.ParseTime: runs the corrected in-duration rule through ParseRelative; as written it differs only on "in N units" whose offset overflows int64 (DateTime.ParseInDurationAsWritten).
- Durations.ParseDuration: this is the corrected rule of the first Findings row; the code as written is Durations.ParseDurationAsWritten, which wraps a bare count of minutes on int64 overflow.
- Civil.Add: Go's `Time.Add` saturates the wall clock on int64 overflow; the model adds exactly.
- The "1h30m" duration (datetime_test.go:422-426) is not proved. `GoDuration.ParseGoDuration` covers multi-component durations, but the proofs cover only a single component.
- GoDuration.FractionNanos: Go computes the fraction's nanoseconds as a float64 product truncated to an integer, the model as an exact floor; the two can differ by one nanosecond ("0.01812836966500h" is 65262130793 ns in Go and 65262130794 ns in the model).
- GoDuration.ParseGoDuration: fractional durations inherit that one-nanosecond difference, and no lemma about them is proved.
- CalendarClient.ParseEventResult: the `time.Parse` error text that Go appends to "failed to parse start time" is not modelled. The error carries the date text instead.
- CalendarClient.CreateEvent: the RFC 3339 formatter is the parameter `format`. `EchoedEventKeepsTimes` assumes it writes a canonical stamp of the same instant.
- The network: the Calendar API service (`calendar.NewService`, `Events.Insert().Do()`) is the parameter `Service`, and a service failure is a `serviceFailure` value. The client's context is not modelled.
- Auth: the oauth2 library is left out. Its `TokenSource` refresh and `Exchange` are World values, `Token.Valid` is the World predicate `valid`, and only the behaviour the tests fix (`ValidityAsTested`) is assumed of it.
- Auth: `net.Listen`, the HTTP server, `openBrowser`, the goroutines and the `select` in `authenticate` are left out. The listen result and the event that ends the wait (a code, an error, a cancelled context, five minutes) are World values.
- Auth: the `AuthCodeURL` with its fixed state "state-token", the scopes and the printed prompts are output only.
- Auth: JSON encoding and the token file's permission bits (0600) are not modelled. The token file is a `TokenFile` value: a token, `{}`, or text that is not JSON.
- Auth: whether a token is valid is left to the oauth2 library. That library treats a zero expiry as never expiring, so the model assumes only two facts: the token with every field empty (what `{}` decodes to) is invalid, and one that expired an hour or more ago is invalid. A token with an empty access token but other fields set is left unconstrained.
- Auth.Message: `TokenMissing` prints the text `os.ReadFile` gives on Unix systems ("open <path>: no such file or directory"); other systems word it differently. A token file that exists but cannot be read is not modelled. The JSON decoder's error text is a string the model carries, not one it computes.
- Auth.AuthSentinel: ErrTokenRefreshFailed is declared but never returned (a failed refresh falls back to the browser flow). It has a constructor and no producer.
- Config: viper's internals are left out: key case folding and the search for other config file types. Of the environment, the model reads what `AutomaticEnv` and `BindEnv` give: the upper-cased key first, then the bound variable.
- Config.AutomaticName: upper-cases ASCII letters only, as the five keys contain no other letters.
- Config.Message: the text that viper's decoder adds after "failed to unmarshal config: " is not modelled; the message names the key in its place.
- Config.LoadSpec: a setting holds text, a number or nil only. YAML lists, maps, floats and booleans are not modelled. In Go a list or map under a string key makes `v.Unmarshal` fail (config.go:102-104), and a float or boolean duration is decoded by the weak decoder. The claim that only the file's parse error and the duration's decoding error can occur holds for the three modelled kinds.
- Config.DecodeInt: `strconv.ParseInt` base prefixes, underscores and octal forms used by the weak decoder are not modelled. Decimal text is read as `Atoi` reads it.
- Config.JoinPath: `filepath.Join` cleaning of `.` and `..` is not modelled. Only the empty base and the trailing separator are handled.
- EnsureConfigDir (config.go:140-151) only creates a directory (`os.MkdirAll`) and is not modelled.
- Config.ValidateCredentialsExist: a stat failure other than a missing file passes in the source; the model takes the set of paths that are not reported missing.
- Auth.Authenticator: the files on disk are a `map` field of the class. File permissions and concurrent writers are not modelled.

## Findings

| source | as written | input that shows it | evidently intended | confidence | as-written member | corrected member |
|---|---|---|---|---|---|---|
| internal/calendar/datetime.go:266-268 | a bare integer is multiplied as `time.Duration(minutes) * time.Minute`, which wraps on int64 overflow | "153722868" gives -9223371993709551616 ns, a negative duration, while "153722868m" is refused | refuse a count of minutes that does not fit, as `time.ParseDuration` does for "Nm" | high (proved; not executed) | Durations.BareIntegerWraps | Durations.BareIntegerRefused |
| internal/calendar/datetime.go:134-143 | "in N units" multiplies `time.Duration(amount)` by the unit, which wraps on int64 overflow | "in 2562048 hours" gives an instant before now | refuse an amount whose offset does not fit in a duration | high (proved; not executed) | DateTime.InDurationWraps | DateTime.InDurationOf |
