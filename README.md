# toast: configuration, uptime and command line, in Dafny

This project models the decision-making core of the toast web server:

- **Configuration store** (`config.dfy`, module `Config`). It models `src/toast/config.c`:
  - `init_config`, which fills the record with defaults;
  - `write_config`, which normalises the record into a JSON tree;
  - `read_config`, which validates a JSON tree field by field and fills the record only when every check passes.

  The `Config` record of `include/config.h` is a value (`Config.Config`). The caller's record, which the C code fills by reference, is the class `Config.ConfigRecord`. Its methods `Init` and `Read` update it in place.
- **Uptime and request handlers** (`api.dfy`, module `Api`). It models `src/toast/api.c`:
  - the Gregorian leap rule and month lengths;
  - the borrow chain of `format_uptime` and the text it prints;
  - the decisions of `get_cv`, `get_server_info` and `get_uptime`.
- **Command-line overrides** (`cli.dfy`, module `Cli`). It models the option loop of `parse_args` in `src/toast/cli.c`. The loop applies options left to right to the caller's record, in place. An early return keeps the updates made before it.
- **Support modules**:
  - `wrappers.dfy`: `Option` and `Result`;
  - `json_tree.dfy`: JSON documents as value trees, standing for jansson's `json_t`;
  - `libc.dfy`: the C library behaviour the core relies on. This covers `strlcpy` truncation, conversion to `unsigned int`, `strncasecmp`, glibc's `atoi` (`(int) strtol`), `%d` and `%02d`.

Clocks, files and the network are parameters:
- `FormatUptime` receives the two broken-down times.
- `WriteConfig` receives whether the config directory is ready.
- `ConfigRecord.Read` receives the parsed document, or `None` when no readable JSON file exists.
- `ParseArgs` receives the sequence of results `getopt_long` would report.
- `GetCv`, `GetServerInfo` and `GetUptime` receive the request method, and `GetCv` also the request's header list.

Each operation is paired with what it promises:
- Writing is paired with reading back (`RoundTrip`, `RoundTripFixed`, `RewriteIsStable`).
- Validation is paired with a table of checks in source order (`ReadConfigReportsFirstFailure`).
- The uptime chain is paired with the quantities it conserves (`UptimeKeepsElapsedTime`, `UptimeInRange`).
- The option loop is paired with a recursive specification. Lemmas state the last-wins, parity, stop and "nothing else changes" properties.

## Model

| member | source | states |
|---|---|---|
| LibC.ToUnsigned | src/toast/cli.c:102-103 | conversion to `unsigned int`: identity on 0..2^32-1; negative `int` values land at 2^31 or above |
| LibC.Truncate | src/toast/config.c:261 | `strlcpy` into an n+1 byte buffer keeps exactly the first n characters of a longer string, and the whole string when it fits |
| LibC.StrNCaseEqPrefix | src/toast/config.c:232-234 | `strncasecmp(a, b, n) == 0` with `a` of length ≥ n holds iff `b` has at least n characters whose lower-cased prefix equals that of `a` |
| LibC.Atoi | src/toast/cli.c:102 | `atoi` yields an `int`, and equals the number `strtol` reads whenever that number is in `int` range |
| LibC.AtoiDecimal | src/toast/cli.c:102 | `atoi` reads back every `int` printed with `%d` |
| JsonTree.Get | src/toast/config.c:211 | `json_object_get` finds a member exactly when the value is an object holding that key |
| JsonTree.StringAt | src/toast/config.c:219-220 | a member passes `json_is_string` exactly when it is present and a string, and its text is returned |
| JsonTree.IntAt | src/toast/config.c:273-274 | a member passes `json_is_integer` exactly when it is present and an integer |
| JsonTree.BoolAt | src/toast/config.c:296-297 | a member passes `json_is_boolean` exactly when it is present and a boolean |
| JsonTree.ObjectAt | src/toast/config.c:244-245 | a member passes `json_is_object` exactly when it is present and an object |
| Config.ConfigRecord.Init | src/toast/config.c:22-56 | after `init_config` the record is "site/", Both, 127.0.0.1:8080, compression on at 6 with min_size 150, ssl off, not cached, no paths |
| Config.LogTypeName | src/toast/config.c:92-105 | the three enumerators have names; any other tag has none |
| Config.WrittenIp | src/toast/config.c:107-110 | a NULL ip is written as "127.0.0.1", any other ip as stored |
| Config.WrittenPort | src/toast/config.c:112-116 | the port written is always 1..65535: the stored one when usable, 8080 otherwise |
| Config.WrittenQuality | src/toast/config.c:123-132 | the quality written is ≤ 9 and never 0 with compression on; a stored value meeting both is kept; above 9, or 0 with compression on, becomes 6 |
| Config.WrittenPath | src/toast/config.c:147-161 | a NULL cert_path or key_path is written as "", any other path as stored |
| Config.WrittenSslEnabled | src/toast/config.c:137-161 | ssl "enabled" is written true only when both paths are present, and then as stored |
| Config.NormaliseIsNormal | src/toast/config.c:107-161 | every record is written in normal form |
| Config.NormalIsWrittenAsIs | src/toast/config.c:107-161 | a record already in normal form is written field for field as stored |
| Config.DocumentOfNormalise | src/toast/config.c:84-165 | writing the normalised record gives the same document as writing the record |
| Config.WriteConfig | src/toast/config.c:58-175 | returns 0 or -1; 0 exactly when the directory is ready, the record is non-null and log_type is a named enumerator; then the tree written is `Document` of the record |
| Config.WriteNetwork | src/toast/config.c:107-116 | the "network" object built member by member equals `NetworkDocument` |
| Config.WriteCompression | src/toast/config.c:118-135 | the "compression" object built member by member equals `CompressionDocument` |
| Config.WriteSsl | src/toast/config.c:137-161 | the "ssl" object, with "enabled" overwritten by false for a missing path, equals `SslDocument` |
| Config.DecodeLogType | src/toast/config.c:228-237 | Both iff the first four characters are "both" case-insensitively; File iff not Both and they are "file"; otherwise Console, never another tag |
| Config.LogTypeNameRoundTrip | src/toast/config.c:92-105 | each name write_config uses reads back as the enumerator it names |
| Config.Decode | src/toast/config.c:211-428 | a decoded record has a log_type enumerator, an ip and both paths present and cut to their buffers; with the quality reading, min_size equals quality |
| Config.DecodeNetwork | src/toast/config.c:244-281 | a decoded ip is present and at most 15 characters |
| Config.DecodeCompression | src/toast/config.c:320-325 | with the quality reading, the min_size stored equals the quality |
| Config.DecodeSsl | src/toast/config.c:334-413 | decoded paths are present and at most 1023 characters |
| Config.CompressionFix | src/toast/config.c:320-332 | both readings of the compression section accept the same objects, fail with the same error, and differ only in min_size |
| Config.FixChangesOnlyMinSize | src/toast/config.c:320-332 | the reading as written and the corrected one accept the same documents; the one as written stores the quality as min_size |
| Config.RootChecksFailure | src/toast/config.c:211-242 | the site_root and log_type checks fail with ("root", "site_root") and ("root", "log_type"), in that order |
| Config.SectionChecksFailure | src/toast/config.c:244-413 | the network, compression and ssl checks fail with the error of their section's decoder, in that order |
| Config.ReadConfigReportsFirstFailure | src/toast/config.c:211-413 | read_config fails iff some check of the 14-entry table (site_root, log_type, network, ip, port labelled "root", compression, enabled, quality, min_size, ssl, enabled, mem_cached, cert_path, key_path) fails, and then with the error of the first failing check |
| Config.FirstFailureAppend | src/toast/config.c:211-413 | running two lists of checks in sequence reports the first list's failure, else the second's |
| Config.Cut | src/toast/config.c:415-428 | what read_config stores fits the 16- and 1024-byte buffers: site_root, ip, cert_path and key_path are each the longest prefix that fits (strlcpy at lines 220, 261, 381, 404), present paths and ip stay present, and log_type, port, compression and the two ssl flags are stored unchanged |
| Config.CutKeepsFitting | src/toast/config.c:220 | strings that fit their buffers are stored uncut |
| Config.ReadBackFixed | src/toast/config.c:84-165 | with min_size read from its own member, reading back any written document gives the normalised record with its strings cut to the buffers |
| Config.ReadBackAsWritten | src/toast/config.c:320-325 | as written, reading back gives the same, except that min_size comes back equal to the written quality |
| Config.LongAddressCutOnRead | src/toast/config.c:260-261 | an ip longer than 15 characters is written whole and read back as its first 15 characters |
| Config.RoundTrip | src/toast/config.c:415-428 | as written: a normal record whose strings fit comes back unchanged except min_size, which equals the quality |
| Config.RoundTripFixed | src/toast/config.c:320-325 | corrected: a normal record whose strings fit comes back unchanged |
| Config.RewriteIsStable | src/toast/config.c:58-175 | corrected: writing what was read back reproduces the same document |
| Config.MinSizeLostOnDefaults | src/toast/config.c:325 | as written, the default record's min_size 150 reads back as 6, so the server compresses from 6 bytes on (src/main.c:297-298), and writing the record read back would give a different document |
| Config.ConfigRecord.Read | src/toast/config.c:177-433 | returns 0 or -1; 0 exactly when a document is present and passes every check, and the record then holds the values as written decodes them, min_size taken from the "quality" member; on -1 the record is untouched |
| Api.DaysInMonth | src/toast/api.c:40-45 | for months 0..11: 28..31 days; February has 29 iff the year is a leap year, 28 otherwise; other months take the table value, which is at least 30 |
| Api.YearLength | src/toast/api.c:40-45 | the twelve month lengths add up to 366 in a leap year and 365 otherwise |
| Api.FormatUptime | src/toast/api.c:47-81 | the step-by-step borrow chain prints exactly `UptimeText`: "%dm %dd %02d:%02d:%02d" of the closed-form duration `Uptime`, with the month length looked up with tm_year as written |
| Api.UptimeKeepsElapsedTime | src/toast/api.c:52-75 | months = 12·Δyear + Δmon, minus 1 exactly when end.mday < start.mday; days, hours, minutes and seconds add up to the raw difference, plus the start month's length when a month was borrowed |
| Api.UptimeInRange | src/toast/api.c:59-75 | for calendar times, seconds and minutes end in 0..59, hours in 0..23, and days in -1..30 |
| Api.RenderedExamples | src/toast/api.c:77-78 | the rendering pads to two digits and signs negative numbers |
| Api.SameInstantIsZero | src/toast/api.c:52-78 | equal start and end print "0m 0d 00:00:00" |
| Api.TwoSecondsAcrossMonthEnd | src/toast/api.c:52-78 | 2024-01-31 23:59:59 to 2024-02-01 00:00:01 prints "0m 0d 00:00:02" |
| Api.TwoSecondsDuration | src/toast/api.c:52-75 | those two times are calendar times two seconds apart in the computed duration |
| Api.NegativeDays | src/toast/api.c:59-75 | January 1 23:00:00 to February 1 01:00:00 prints "1m -1d 02:00:00" |
| Api.NegativeDaysDuration | src/toast/api.c:59-75 | for those calendar times the hour borrow after the day borrow leaves days at -1 |
| Api.LeapDayLost | src/toast/api.c:61 | as written, 2000-02-29 to 2000-03-01 prints "0m 0d 00:00:00" |
| Api.LeapDayDuration | src/toast/api.c:61 | 2000 is a leap year but tm_year 100 is not, so as written February 2000 counts 28 days and the duration is zero |
| Api.LeapDayCounted | src/toast/api.c:61 | corrected, the same interval prints "0m 1d 00:00:00" |
| Api.LeapDayFixedDuration | src/toast/api.c:61 | corrected, the same interval is a duration of one day |
| Api.CenturyYears | src/toast/api.c:36-45 | 2000 is a leap year with a 29-day February; year 100 is not, with 28 |
| Api.FixedCountsDaysToNextMonth | src/toast/api.c:59-62 | corrected, from day d of a month to the 1st of the next at the same time is exactly (length of the month − d + 1) days |
| Api.FindHeader | src/toast/api.c:99-103 | the header search returns the index of the first header of that name after the cursor, and -1 exactly when there is none after it |
| Api.GetCv | src/toast/api.c:90-117 | returns 0 iff the method is GET and the search with cursor 0 finds a "language" header; then a 200 PDF reply of the Swedish file iff that header's value is byte-equal to "Swedish", else the English file; otherwise -1 with nothing sent |
| Api.FirstLanguageHeaderMissed | src/toast/api.c:99-100 | as written, a request whose only header is "language: Swedish" gets no match, so get_cv declines it |
| Api.FindFromStart | src/toast/api.c:99-100 | corrected, a search from cursor -1 finds a header exactly when the request has one of that name, and finds the first |
| Api.GetServerInfo | src/toast/api.c:119-169 | returns 0 iff the method is GET, and then a 200 reply carrying `UptimeText`, the text format_uptime prints as written; otherwise -1 with nothing sent |
| Api.GetUptime | src/toast/api.c:171-203 | answers every method with 0 and a 200 reply carrying `UptimeText`, the text format_uptime prints as written |
| Cli.PortValue | src/toast/cli.c:101-109 | `-p` accepts exactly the arguments `atoi` reads as 1..65535, and yields that number |
| Cli.ParseArgs | src/toast/cli.c:58-130 | the in-place loop leaves the record and returns the value given by the left-to-right specification `Run`; with no options, 0 and an unchanged record |
| Cli.RunAppend | src/toast/cli.c:79-127 | options are handled in sequence: a run of xs followed by ys continues from where xs left the record, unless xs stopped |
| Cli.StopsAt | src/toast/cli.c:79-127 | a stopping option ends the run with the options before it applied and none after |
| Cli.UnrecognisedStops | src/toast/cli.c:120-122 | an unknown option returns 0 at once; earlier options stay applied, later ones are ignored |
| Cli.QuietOptionsIgnored | src/toast/cli.c:124-125 | `-v` and an option missing its argument change nothing, and parsing carries on |
| Cli.HelpExits | src/toast/cli.c:87-89 | `-h` ends with usage and exit status 0; nothing after it is applied |
| Cli.LongAddressRejected | src/toast/cli.c:91-96 | an address over 15 characters returns -1 with the address unchanged and earlier options kept |
| Cli.BadPortRejected | src/toast/cli.c:101-105 | a port `atoi` does not read as 1..65535 returns -1, keeping earlier options |
| Cli.PortRoundTrip | src/toast/cli.c:101-109 | every port 1..65535 in decimal is accepted as itself |
| Cli.NegativePortRejected | src/toast/cli.c:102-103 | every negative `int` in decimal is refused, since its unsigned value exceeds 65535 |
| Cli.NonNumericPortRejected | src/toast/cli.c:102-103 | text that does not start with a sign or digit after white space reads as 0 and is refused |
| Cli.PortWrapsAround | src/toast/cli.c:102 | a decimal number above `int` range whose low 32 bits are 1..65535 is accepted as those low bits |
| Cli.LastAddressWins | src/toast/cli.c:91-99 | after a completed run the address is that of the last `-i`, or unchanged without one |
| Cli.LastPortWins | src/toast/cli.c:101-109 | after a completed run the port is the value of the last `-p`, or unchanged without one |
| Cli.SslToggledByParity | src/toast/cli.c:111-113 | after a completed run ssl.enabled has flipped once per `-s` |
| Cli.CompressionToggledByParity | src/toast/cli.c:115-118 | after a completed run compression.enabled has flipped once per `-c` |
| Cli.TogglesAreInvolutions | src/toast/cli.c:111-118 | `-s -s` and `-c -c` each leave the record as it was |
| Cli.OnlyOverridesChange | src/toast/cli.c:86-126 | any run changes only the address, the port and the two flags; an address it sets fits the 16-byte buffer, and a port it sets is 1..65535 |

## Left out

- File I/O:
  - `get_cwd`, `path_exist`, `make_dir`, `fopen` and `json_dumpf` in `write_config` are reduced to the `dirReady` parameter and the returned tree.
  - `json_load_file` in `read_config` is reduced to an optional parsed document.
  - A failing `fopen` in `write_config` is not modelled.
- The JSON text encoding (2-space indentation) and parsing are not modelled. Documents are value trees, and integers are unbounded rather than `json_int_t`.
- Allocation failures are not modelled. Neither are the branches they take, nor the leaks such as the two `malloc` results overwritten with NULL in `init_config`.
- Strings are sequences of characters. Counting bytes of multi-byte UTF-8 text, and embedded NUL bytes, are not modelled.
- Diagnostics are left out:
  - `handle_parse_err` becomes the `FieldError(category, field)` value;
  - the `fprintf`/`printf` messages of `read_config`, `get_cv` and `parse_args` are not modelled;
  - the usage text and its year are not modelled.
- The clock is left out. `init_start_date`, `time` and `localtime_r` are replaced by the two `Tm` parameters. The buffer of `format_uptime` and its 48-byte `snprintf` limit are not modelled; no realistic uptime reaches that limit.
- The server-info body has build-time constant members ("name", "description", "version" and the dependency versions). Only its "uptime" member is modelled.
- The JSON handlers add their content-type header to the request's header list (src/toast/api.c:163-164, 196-197), so the model's JSON replies carry no content type.
- A `json_dumpb` that returns size 0 (src/toast/api.c:146-150, 179-183) is not modelled; for these objects it happens only when allocation fails.
- `getopt_long` itself is not modelled: its argument permutation, bundled short options, long-option abbreviation and `optind`. The model starts from the sequence of results it reports.
- The result of `getopt_long` is stored in a `char` (src/toast/cli.c:80). On targets where `char` is unsigned, -1 never compares equal and the loop would not end; the model assumes signed `char`.
- Integer overflow of C `int` in the uptime arithmetic is not modelled, because differences of `struct tm` fields stay small.
- An unknown flag makes `parse_args` return 0 at once (src/toast/cli.c:120-122), so options after it are not applied. The model follows this.
- h2o's header search is not part of this model. `Api.FindHeader` takes its cursor to mean "search after this index", with -1 for a search from the start; this is how h2o's public headers document the cursor. Header names are compared byte for byte, as h2o stores them lower-cased.
- `ParseArgs` takes the caller's record as non-null. `parse_args` never checks it for NULL.

## Findings

| source | as written | input that shows it | evidently intended | confidence | as-written member | corrected member |
|---|---|---|---|---|---|---|
| src/toast/config.c:325 | `compression_min_size` is read from the "quality" member, after the "min_size" member was checked | the default record (min_size 150, quality 6) written and read back gives min_size 6 | min_size read from the "min_size" member, so a written record reads back unchanged | high, not executed | Config.MinSizeLostOnDefaults | Config.RoundTripFixed |
| src/toast/api.c:61 | the leap test gets `tm_year` (years since 1900), so February 2000 counts 28 days | 2000-02-29 00:00:00 to 2000-03-01 00:00:00 prints "0m 0d 00:00:00" | the leap test on the calendar year, `tm_year + 1900`, giving "0m 1d 00:00:00" | high, not executed | Api.LeapDayLost | Api.LeapDayCounted |
| src/toast/api.c:100 | `h2o_find_header_by_str` is called with cursor 0, and the search starts after the cursor | a request whose only header is "language: Swedish" is declined with -1 | cursor -1, so the first header is searched too and the Swedish file is sent | medium (depends on h2o's cursor convention), not executed | Api.FirstLanguageHeaderMissed | Api.FindFromStart |
