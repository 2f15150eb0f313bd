# Telegram operations bot: command routing and weather lookup

A Dafny model of the command-routing core of a Telegram bot written in Go
(`telegram-aws`). The bot drains a stream of updates. It skips updates that
carry no message, and updates whose message the bot library does not classify
as a command. Every other update is split into a command and its argument
text. A reply is chosen for `help`, `sayhi`, `weather`, `usage` or an
unknown command, and that reply is sent to the chat the message came from.
The `weather` command resolves a city name through a geo lookup service.
It then fetches the current conditions of the first location found and
re-renders the observation time.

Modules, one per part of the program:

- `Commands` (`commands.dfy`): `parseCommand` and `handleDefaultCommand`.
- `WeatherTime` (`weather_time.dfy`): `convertTimeFormat`. The parser accepts
  exactly what Go's `time.Parse` accepts for the layout
  `2006-01-02T15:04-07:00`. That layout is the RFC 3339 date-time with a UTC
  offset, to the minute.
- `Weather` (`weather.dfy`): the two lookup URLs, the classification of the
  response codes in `getCityId`, and the way `GetCityWeather` assembles its
  result.
- `Lightsail` (`lightsail.dfy`): the start of the month-to-date metric
  window, and the usage reply text.
- `Bot` (`bot.dfy`): the reply `switch`, one loop iteration, the trace of the
  loop as a specification, and the loop itself as a method.
- `Optional` (`optional.dfy`): the Option type.

What the code does, as modelled:

- Go functions here return a pointer and an error. The model keeps both,
  as a pair of Options.
- `GetCityWeather` returns no record exactly when it returns an error.
- In the `weather` branch, the `error: ...` text is assigned and then the
  record is dereferenced anyway. So a failed conditions lookup does not
  produce an error reply. It panics, and the panic ends the process (all
  workers). The model stops the loop at the first such panic. The
  `error: ...` text never reaches a send.
- A failed geo lookup is not an error at all. It yields an empty record,
  so the reply is the three-line weather text with empty fields.
- `parseCommand` slices `message[1:]`, which panics on an empty text. An
  empty command text is therefore a crash as well.

Inputs instead of effects:

- The two weather services are functions from the URL requested to what the
  request produced: the decoded response, or the text of the HTTP error or
  the decoding error.
- The usage call is an input outcome: a report whose numbers are already
  rendered as text, or the process ending inside the call.
- The current time is an input to `MonthStart`.
- Sends are collected as the method's result.

## Model

| member | source | states |
|---|---|---|
| `Commands.FirstSpace` | telegram-aws/main.go:131 | the cut point of a split on the first space: no space before it, a space at it unless it is the end |
| `Commands.ParseCommand` | telegram-aws/main.go:130-138 | needs a non-empty message; the command has no space; the text after the marker is the command alone (and then the argument is empty) or the command, one space and the argument |
| `Commands.ParseCommandUnique` | telegram-aws/main.go:131-137 | any split of the text after the marker into a space-free command, a space and an argument text is the one parseCommand returns |
| `Commands.ParseWeatherExample` | telegram-aws/main.go:130-138 | `/weather new york` splits into `weather` and `new york` |
| `Commands.ParseHelpExamples` | telegram-aws/main.go:130-138 | `/help` and `/help ` both split into `help` and the empty argument |
| `Commands.ParseSayHiExample` | telegram-aws/main.go:130-138 | only the first space splits: `/sayhi extra arg` gives the argument `extra arg` |
| `Commands.HandleDefaultCommand` | telegram-aws/main.go:139-145 | the result is empty exactly when the argument is empty, and otherwise the fixed rejection text |
| `WeatherTime.ParseObsTime` | telegram-aws/utils/getWeather.go:48 | every accepted timestamp parses to fields within the ranges time.Parse enforces |
| `WeatherTime.ParseSound` | telegram-aws/utils/getWeather.go:48 | every accepted string is the rendering of the fields it parses to, with a two-digit hour (22 characters) or a one-digit hour below ten (21 characters) |
| `WeatherTime.ParseLayout` | telegram-aws/utils/getWeather.go:48 | every valid timestamp written with a two-digit hour is accepted and parses back to its fields |
| `WeatherTime.ParseShortHourLayout` | telegram-aws/utils/getWeather.go:48 | a valid timestamp written with a one-digit hour is accepted too |
| `WeatherTime.ConvertTimeFormat` | telegram-aws/utils/getWeather.go:47-55 | on error the text is empty; on success it is 16 characters holding the input's date and clock digits with a space for the `T`, the hour zero-padded and the offset dropped |
| `WeatherTime.Display` | telegram-aws/utils/getWeather.go:53 | the output layout `2006-01-02 15:04`: sixteen characters with the separators in place, reading back as the year, month, day, hour and minute |
| `WeatherTime.DisplayKeepsDigits` | telegram-aws/utils/getWeather.go:53 | the output of an accepted timestamp repeats its date and wall-clock characters |
| `WeatherTime.ConvertLayout` | telegram-aws/utils/getWeather.go:47-55 | a valid timestamp converts without error to `YYYY-MM-DD HH:MM` of the same fields |
| `WeatherTime.ConvertRejects` | telegram-aws/utils/getWeather.go:49-51 | a string that renders no valid timestamp gives the empty text and an error |
| `WeatherTime.ConvertExample` | telegram-aws/utils/getWeather.go:47-55 | `2024-05-01T10:00+08:00` converts to `2024-05-01 10:00` |
| `Weather.LookupUrl` | telegram-aws/utils/getWeather.go:60 | a lookup URL is the endpoint, the location verbatim, `&key=` and the key verbatim, nothing escaped |
| `Weather.GeoUrl` | telegram-aws/utils/getWeather.go:60 | the geo URL is the geo lookup endpoint, the city name verbatim, `&key=` and the key |
| `Weather.WeatherUrl` | telegram-aws/utils/getWeather.go:92 | the conditions URL is the conditions endpoint, the location id verbatim, `&key=` and the key |
| `Weather.LookupUrlInjective` | telegram-aws/utils/getWeather.go:60 | when neither location contains `&`, equal URLs have equal locations and keys |
| `Weather.LookupUrlAmbiguous` | telegram-aws/utils/getWeather.go:60 | without escaping, a location holding `&key=` yields the same URL as a different location and key |
| `Weather.ClassifyGeo` | telegram-aws/utils/getWeather.go:70-76 | code 200 with at least one location is success; 404 is `get data failed 404`; anything else, 200 with no location included, is `error get args`; an error exactly when no response |
| `Weather.GetCityId` | telegram-aws/utils/getWeather.go:58-78 | a response is returned exactly when no error is, and only the 200 response with a location that the geo URL produced; a decoded answer is classified as ClassifyGeo says; an HTTP failure gives `http get fail: ` and a decoding failure `json the data failed: `, each followed by the error text |
| `Weather.ConditionsFor` | telegram-aws/utils/getWeather.go:91-118 | the conditions step returns a record exactly when it returns no error |
| `Weather.GetCityWeather` | telegram-aws/utils/getWeather.go:82-120 | the record is nil exactly when the error is set; a failed geo lookup gives the empty record and no error |
| `Weather.GeoFailureSkipsConditions` | telegram-aws/utils/getWeather.go:84-90 | after a failed geo lookup the result does not depend on the conditions service |
| `Weather.CityWeatherFound` | telegram-aws/utils/getWeather.go:106-113 | on success the name is the first geo hit's, the conditions URL uses the first hit's id, the temperature is copied, and the date is the converted time or empty when it does not parse |
| `Weather.CityWeatherFailed` | telegram-aws/utils/getWeather.go:93-118 | a failed or non-200 conditions answer gives no record and the matching error: HTTP, decoding, `get data failed 404` or `error get args` |
| `Weather.ShenzhenWeather` | telegram-aws/utils/getWeather.go:82-120 | Shenzhen resolved to its id with 28 degrees at `2024-05-01T10:00+08:00` gives the record Shenzhen, 28, `2024-05-01 10:00` and no error |
| `Lightsail.MonthStart` | telegram-aws/main.go:29-37 | the month start keeps the year, month and location, with day 1 and every field below it 0 |
| `Lightsail.MonthStartWindow` | telegram-aws/main.go:33 | the month start is a valid time no later than now, taking it twice changes nothing, and all times of one month and location share it |
| `Lightsail.ZerosFirst` | telegram-aws/main.go:33 | all-zero trailing fields come no later than any non-negative ones, so midnight is the earliest time of a day |
| `Lightsail.UsageText` | telegram-aws/main.go:200-201 | the usage reply holds the labels ` Name: `, `\n NetworkIn: `, ` \n NetworkOut: ` and ` \n Total: `, each followed by its field, at fixed offsets |
| `Bot.WeatherText` | telegram-aws/main.go:189 | the reply is the label `城市：`, the name, a line break and `温度：`, the temperature, a line break and `日期：`, the date and a final line break, each field at its own offset |
| `Bot.WeatherTextInjective` | telegram-aws/main.go:189 | when neither name nor temperature holds a line break, the reply text determines the record |
| `Bot.Reply` | telegram-aws/main.go:164-206 | unknown command: `I don't know that command`; help, sayhi and usage with arguments: the rejection text; without: the menu, the greeting, the usage text (or a panic if the usage call aborts); weather without a city: the hint; with one: a panic exactly when the lookup errs, else the three-line text |
| `Bot.WeatherErrorNeverSent` | telegram-aws/main.go:185-191 | with a city name, the weather reply is never the `error: ...` text |
| `Bot.UsageOnlyWhenAsked` | telegram-aws/main.go:193-203 | the usage outcome matters only for `usage` without arguments |
| `Bot.WeatherOnlyWhenAsked` | telegram-aws/main.go:181-191 | the weather services matter only for `weather` with a city name |
| `Bot.Step` | telegram-aws/main.go:152-208 | an update is skipped exactly when it has no message or no command; a reply goes to the message's own chat; an empty command text panics |
| `Bot.StepCommand` | telegram-aws/main.go:161-163 | a message `/command args` is answered with the reply to that command and argument, at its own chat |
| `Bot.StepBareCommand` | telegram-aws/main.go:161-163 | a message `/command` is answered as that command without argument |
| `Bot.ShenzhenExample` | telegram-aws/main.go:181-191 | `/weather shenzhen` against services reporting Shenzhen, 28 and `2024-05-01T10:00+08:00` is answered with the weather text of Shenzhen, 28, `2024-05-01 10:00` |
| `Bot.RepliesAppend` | telegram-aws/main.go:152-210 | the replies of consecutive runs of updates are the concatenation of their replies, in input order |
| `Bot.RepliesOne` | telegram-aws/main.go:152-162 | a skipped update sends nothing; any other update that does not panic sends exactly one reply, to its own chat |
| `Bot.Run` | telegram-aws/main.go:152-210 | the trace of the loop: at most one send per update, and it ends in a panic exactly when some update panics |
| `Bot.RunStaysCrashed` | telegram-aws/main.go:152-210 | once a panic has happened no later update is handled |
| `Bot.RunWithoutCrash` | telegram-aws/main.go:152-210 | without a panic, the loop sends exactly the reference replies: one per handled update, in input order |
| `Bot.RunUntilCrash` | telegram-aws/main.go:152-210 | at the first panic, the loop has sent exactly the replies of the updates before it |
| `Bot.HandleUpdates` | telegram-aws/main.go:148-212 | the loop over a sequence of updates produces the sends and the panic flag of the specified trace |

## Left out

- telegram-aws/conf/config.go: reading the configuration file and decoding its YAML is I/O through a foreign library. The model takes the weather API key as an input.
- The pool of four goroutines, the `sync.WaitGroup` and the shared update channel (telegram-aws/main.go:122-127, 150-152) are concurrency. One worker draining a finite sequence is modelled. With several workers, replies from different workers may interleave in any order.
- The Telegram client (`NewBotAPI`, `GetUpdatesChan`, `bot.Send`) and all logging are transport and I/O. Sends are collected as a result. A failed send is ignored by the code, so it needs no modelling.
- `Message.IsCommand()` belongs to the bot library. It is an input flag on the message.
- `ListInstance`, `GetInstanceDataUsage` and `GetLightsailNetworkUsage` are AWS SDK calls plus floating-point sums and `%.1f` formatting. Their outcome is an input: a report with its numbers already rendered as text, or the process ending inside the call (`log.Fatal`, or a panic on a missing or empty instance list).
- `http.Get`, `io.ReadAll` and `json.Unmarshal` are network and decoding. Each request's outcome is an input: the decoded response, or the text of the error. The printing of the geo error is left out.
- `time.Now`, time zones and the normalisation inside `time.Date` are left out. MonthStart takes the current wall-clock fields and location and does not model a zone in which midnight of the first is skipped.
- WeatherTime.ConvertTimeFormat: the text of the `time.Parse` error is not modelled, only that there is one, because the only caller discards it. The year is accepted as four decimal digits. The offset bounds (hour at most 24, minute at most 60) follow current Go releases.
- Every update of a run sees the same service answers and the same usage outcome: `Env` is one value for the whole sequence, while the code calls the services afresh for each update (telegram-aws/main.go:185, 198). The model cannot express two identical `/weather` updates getting different answers.
- Commands.ParseCommand: Go slices and splits bytes; the model works on characters. The two agree whenever the command marker is a one-byte character such as `/`.
