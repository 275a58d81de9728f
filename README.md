# go-lmsquery alarm scheduler, modelled in Dafny

`go-lmsquery` is a small Go client for the JSON-RPC interface of a
Logitech Media Server. This project models its only non-trivial logic, in
`go-lmsquery.go`, and proves properties of that model:

- **Next-execution annotation** (`GetAlarms`). For every alarm record that is
  not switched off and has days set, today's instant is midnight plus the
  alarm's `Time` seconds. If that instant is before now, the code steps
  forward 24 hours at a time until the weekday equals one of the
  comma-separated `Dow` tokens. The result is written into `NextExecution`
  in place (module `Alarms`, method `AnnotateAlarms` over an `array`).
- **Soonest-alarm selection** (`GetNextAlarm`): a linear scan with a strict
  comparison, so the first of several tied alarms wins. An empty list gives
  `(false, zero Alarm)`.
- **The orchestration of `GetAlarms`**: an optional `alarmsEnabled`
  preference check that can stop before the alarms query is sent, the
  filter choice, and the reported count (module `LmsClient`).
- **`lmsCommandArgs.MarshalJSON`**: it writes `["pid", ["a", "b"]]` by string
  concatenation, with no escaping (module `Wire`).
- **`CreateLms`** and the server URL it builds.

Supporting modules model the standard-library calls the core uses:

- `Strconv`: `Atoi` with its error dropped, and `Itoa`.
- `Strings`: `strings.Split` on a comma.
- `Clock`: time as integer seconds, and `Weekday`.

Time is whole seconds of local wall-clock time counted from 1970-01-01 00:00,
which was a Thursday. So `Weekday(t) = (t / 86400 + 4) % 7`, with 0 for Sunday
as in Go. The start of the current day (`midnight`) and the current instant
(`now`) are parameters. Go's zero `time.Time` is the constant `ZeroTime`,
0001-01-01 on the same scale. The server is a function parameter
`query: (seq<string>, string) -> QueryResult` that gives the reply to a
command sent for a player. `GetAlarms` also returns, as a ghost result, the
list of commands it sends, so the model can state which queries happen.

## Behaviour as written

The names in the code (`NextExecution`, the log line "search for the next
execution") suggest "the next time the alarm rings on one of its days". The
code differs from that reading in three places, and the model follows the
code:

- When today's instant is not before now, it is returned **without any
  weekday check**. The lemma `Scenarios.TodayIsNotCheckedAgainstTheDays`
  exhibits a Monday-only alarm scheduled for a Sunday.
- An unreadable `Dow` token (`" 2"`, or the empty tokens of `","`) is not
  skipped. `Atoi` turns it into 0, so it matches Sunday.
- The result can equal `now`. Only a candidate strictly before now is moved
  forward, so the result is "not before now" rather than "after now".

The selection scan considers every record returned, including skipped ones.
Those keep the zero instant, which is before every computed one
(`Alarms.FirstSkippedAlarmIsSelected`).

## Model

| member | source | states |
|---|---|---|
| `Strconv.Itoa` | go-lmsquery.go:209 | the port is printed in canonical decimal (`"0"`, or no leading zero after an optional minus sign), the digits spell exactly the number's magnitude, and the text reads back through `Atoi` as the same number |
| `Strconv.Atoi` | go-lmsquery.go:167-176 | with the error dropped, text that is not an optionally signed digit run reads as 0 |
| `Strconv.AtoiOfNumeral` | go-lmsquery.go:167-176 | a numeral in the int64 range reads as its value with its sign applied, and the result has the sign of the text |
| `Strings.Split` | go-lmsquery.go:171 | the comma split always gives at least one piece, and no piece contains a comma |
| `Strings.JoinSplit` | go-lmsquery.go:171 | joining the pieces of a split with the separator gives the input back |
| `Strings.SplitJoin` | go-lmsquery.go:171 | splitting comma-free pieces joined by commas gives the same pieces |
| `Clock.Weekday` | go-lmsquery.go:177 | a weekday is a number from 0 (Sunday) to 6 |
| `Clock.WeekdayAfterDays` | go-lmsquery.go:174-177 | each 24-hour step moves the weekday one place round the week |
| `Wire.QuotedList` | go-lmsquery.go:34-40 | the accumulated argument text is empty exactly when there are no arguments, and otherwise starts with a quote |
| `Wire.MarshalJSON` | go-lmsquery.go:33-42 | the output is `["` + player id + `", [` + each argument in quotes, separated by `, ` + `]]`; the separator comes between arguments even when they are empty strings |
| `Wire.MarshalRoundTrip` | go-lmsquery.go:33-42 | when no field holds a double quote, the written text reads back through the quote-splitting reader `Wire.Unmarshal` as the same player id and arguments |
| `Wire.UnescapedQuotesCollide` | go-lmsquery.go:39-41 | without escaping, one argument containing `", "` is written exactly like two arguments |
| `Alarms.DayNumbers` | go-lmsquery.go:171-176 | there is one day number per comma-separated token of `Dow` |
| `Alarms.Search` | go-lmsquery.go:171-184 | the number of days waited is the first one from k up to 7 whose weekday is one of the tokens; no earlier day matches |
| `Alarms.SomeDayWithinAWeek` | go-lmsquery.go:171-184 | when some token names a weekday in 0..6, a matching day comes within 7 steps, so the loop ends |
| `Alarms.TokenNamesDay` | go-lmsquery.go:175-182 | the scan over the tokens, with its `break`, reports a match exactly when some token read by `Atoi` equals the weekday |
| `Alarms.NextExecution` | go-lmsquery.go:166-185 | the day-by-day loop, with the token scan and its `break`, computes exactly the specified instant |
| `Alarms.NextExecutionIsFirstMatch` | go-lmsquery.go:166-185 | if today's instant is not before now, it is the result whatever the weekday; otherwise the result is 1 to 7 whole days later, its weekday is one of the tokens, and no earlier whole day matches |
| `Alarms.NextExecutionNotInPast` | go-lmsquery.go:166-185 | with `Time` inside one day and now inside today, the result is not before now, and no matching day between now and the result is skipped |
| `Alarms.OnlyTodayWaitsAWeek` | go-lmsquery.go:169-184 | when the only weekday named is today's (other tokens name no weekday, such as 7) and today's instant has passed, the result is exactly 7 days after it |
| `Alarms.UnreadableFieldsDegrade` | go-lmsquery.go:167-176 | an unreadable `Time` counts as 0 seconds, so the candidate is midnight; an unreadable day token counts as 0, so Sunday matches |
| `Alarms.BadTokensMeanSunday` | go-lmsquery.go:171-176 | `","` gives the day numbers `[0, 0]` and `" 2"` gives `[0]` |
| `Alarms.Annotated` | go-lmsquery.go:162-188 | length, order and every field except `NextExecution` are unchanged; records with `Enabled == "0"` or an empty `Dow` are untouched; every other record, whatever its `Enabled` string, gets the computed instant |
| `Alarms.AnnotateAlarms` | go-lmsquery.go:162-187 | the loop writes the records in place, leaving the array equal to the annotated records |
| `Alarms.SelectNextAlarm` | go-lmsquery.go:193-205 | found exactly when the list is non-empty; the record returned has the smallest `NextExecution` and no earlier record ties with it; otherwise the zero record |
| `Alarms.FirstSkippedAlarmIsSelected` | go-lmsquery.go:193-200 | among fresh records, a skipped one keeps the zero instant, which wins the scan over every scheduled alarm |
| `LmsClient.CreateLms` | go-lmsquery.go:208-210 | the URL is `http://`, the host, `:`, the port in decimal and `/jsonrpc.js`; the port text is exactly `Itoa(port)` and reads back as the port |
| `LmsClient.ServerUrlIdentifiesServer` | go-lmsquery.go:209 | two servers whose hosts contain no colon get the same URL only if host and port are equal |
| `LmsClient.PlayerPrefRequest` | go-lmsquery.go:143-145 | for the preference query `MarshalJSON` writes `["<player>", ["playerpref", "<pref>", "?"]]`, which reads back through `Wire.Unmarshal` as that command when the names hold no double quote |
| `LmsClient.GetAlarms` | go-lmsquery.go:147-188 | with `enabled` and the preference `"0"`, the result is `(0, nil)` and only the preference query is sent; otherwise the query is `alarms 0 99` with `filter:enabled` or `filter:all`, the count is the reply's, and the alarms are the reply's records annotated |
| `LmsClient.GetNextAlarm` | go-lmsquery.go:191-206 | nothing is found when alarms are switched off for the player; otherwise the result is the first earliest of the annotated enabled-filter records, or `(false, zero record)` when there are none |
| `Scenarios.PassedTodayWaitsAWeek` | go-lmsquery.go:166-184 | on Monday 08:00, a Monday alarm at 06:00 next fires the following Monday at 06:00 |
| `Scenarios.LaterTodayFiresToday` | go-lmsquery.go:166-169 | on Monday 08:00, a Monday alarm at 20:00 fires today at 20:00 |
| `Scenarios.TodayIsNotCheckedAgainstTheDays` | go-lmsquery.go:166-169 | on Sunday 07:00, a Monday-only alarm at 08:00 is given Sunday 08:00 |
| `Scenarios.TuesdayBeforeWednesday` | go-lmsquery.go:162-200 | on Monday 10:00, 07:00 alarms for Tuesday and Wednesday get the next Tuesday and Wednesday, and the Tuesday one is selected |

## Left out

- `query`: the HTTP POST is not modelled. Neither are JSON encoding and decoding of the `slim.request` envelope, `panic`/`log.Fatal` on failure, or the sha1 log tags. This is network I/O, so the reply is the parameter `query`.
- `GetServerStatus`, `GetPlayers`, `SetPower`, `SetPowerAll` and `IsPowered` are not modelled. Each is one fixed query whose reply is passed through. `GetPlayerPref` is kept only as the helper `GetAlarms` needs.
- Reply fields that the alarm operations never read (`player_count`, `players_loop`, `info_total_*`, `_power`, `_p0` to `_p4` except `_p2`) are not part of `QueryResult`.
- Real `time.Time` semantics are not modelled. That covers the `Europe/Berlin` location, daylight-saving shifts under 24-hour steps, and the local-date/Berlin-midnight mix. It also covers reading `time.Now()` several times. They are replaced by the integer parameters `midnight` and `now` on a wall-clock scale.
- `Alarms.NextExecution`: does not model the int64 nanosecond wrap-around of `time.Duration(sec) * time.Second` when `|sec|` exceeds 9223372036. Server times are below 86400.
- `Strconv.Atoi` covers an optional sign, then decimal digits, clamped to the int64 range, and 0 for anything else. Go's parser also returns the clamped bound when a digit run whose value already exceeds 2^64-1 is followed by a non-digit. The model returns 0 there.
- Every member that runs the search (`Alarms.NextExecution`, `Alarms.AnnotateAlarms`, `LmsClient.GetAlarms` and `LmsClient.GetNextAlarm`) requires every annotated record whose candidate is before now to have a `Dow` token in 0..6. Without one the Go loop never ends, so that input is a precondition, not a modelled outcome.
- Logging calls are not modelled. They have no effect on results.
- `Wire.MarshalJSON`: only the text the method returns is modelled. In `query`, `json.Marshal` then validates and compacts it: the spaces after the commas are dropped, `<`, `>` and `&` are escaped, and text that is not JSON makes the call fail and the program panic. `Wire.Unmarshal` splits at double quotes and is not a JSON decoder; a JSON reader would also need fields free of backslashes and control characters for the round trip.
- Strings are sequences of characters, not Go byte strings. `MarshalJSON` returns the text rather than `[]byte`, and drops the error result, which is always nil.
- The integration tests in `go-lmsquery_test.go` need a live server and assert nothing, so they are not modelled.
