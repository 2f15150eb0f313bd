/**
 * The update loop of the bot (telegram-aws/main.go, `handleUpdate`): updates
 * without a message or whose message is not a command are skipped; every
 * other one is parsed into a command and its arguments, a reply text is
 * chosen by the command, and the reply is sent to the chat the message came
 * from.
 *
 * One worker is modelled, draining a finite sequence of updates. A Go panic
 * in any worker ends the whole process, so the model stops at the first
 * update whose handling panics and sends nothing more.
 */
module Bot {
  import opened Optional
  import opened Commands
  import Weather
  import Lightsail
  import WeatherTime

  /**
   * An incoming message: the chat it came from, its text, and whether the
   * bot library classifies it as a command (`Message.IsCommand()`).
   */
  datatype Message = Message(chatId: int, text: string, isCommand: bool)

  /** An update; `message` is None for updates that are not messages. */
  datatype Update = Update(message: Option<Message>)

  /** A reply handed to `bot.Send`. */
  datatype Send = Send(chatId: int, text: string)

  /**
   * What the handlers consult: the weather API key, the two weather
   * services (functions of the URL requested) and the outcome of the usage
   * call.
   */
  datatype Env = Env(
    apiKey: string,
    geo: string -> Weather.Fetched<Weather.GeoResp>,
    conditions: string -> Weather.Fetched<Weather.WeatherResp>,
    usage: Lightsail.UsageOutcome)

  /** A reply text, or a panic while choosing it. */
  datatype Outcome = Answer(text: string) | Crash

  const Menu: string := "/help 帮助信息\n/sayhi 欢迎\n/usage 查询vps流量\n/weather 城市名称 查询城市天气"
  const Greeting: string := "Hi :) I am your father!"
  const WeatherHint: string := "vaild command,you should input cityName,example: /weather shenzhen"
  const UnknownCommand: string := "I don't know that command"

  /** The three-line weather reply. */
  function WeatherText(w: Weather.WeatherData): (text: string)
    ensures |text| == 12 + |w.name| + |w.temperature| + |w.date|
    ensures text[..3] == "城市："
    ensures text[3..3 + |w.name|] == w.name
    ensures text[3 + |w.name|..7 + |w.name|] == "\n温度："
    ensures text[7 + |w.name|..7 + |w.name| + |w.temperature|] == w.temperature
    ensures text[7 + |w.name| + |w.temperature|..11 + |w.name| + |w.temperature|] == "\n日期："
    ensures text[11 + |w.name| + |w.temperature|..|text| - 1] == w.date
    ensures text[|text| - 1] == '\n'
  {
    "城市：" + w.name + "\n温度：" + w.temperature + "\n日期：" + w.date + "\n"
  }

  /**
   * When neither the name nor the temperature holds a line break, the reply
   * determines the record: each field ends where the next label begins.
   */
  lemma WeatherTextInjective(w1: Weather.WeatherData, w2: Weather.WeatherData)
    requires '\n' !in w1.name && '\n' !in w2.name
    requires '\n' !in w1.temperature && '\n' !in w2.temperature
    requires WeatherText(w1) == WeatherText(w2)
    ensures w1 == w2
  {
    var text := WeatherText(w1);
    if |w1.name| < |w2.name| {
      LineBreakAt(w1, w2);
      assert false;
    } else if |w2.name| < |w1.name| {
      LineBreakAt(w2, w1);
      assert false;
    }
    var n := |w1.name|;
    assert w1.name == text[3..3 + n] == w2.name;
    if |w1.temperature| < |w2.temperature| {
      LineBreakAfterTemperature(w1, w2);
      assert false;
    } else if |w2.temperature| < |w1.temperature| {
      LineBreakAfterTemperature(w2, w1);
      assert false;
    }
    var t := |w1.temperature|;
    assert w1.temperature == text[7 + n..7 + n + t] == w2.temperature;
    assert w1.date == text[11 + n + t..|text| - 1] == w2.date;
  }

  /** Where the shorter name ends, the longer name's reply has a name character. */
  lemma LineBreakAt(short: Weather.WeatherData, long: Weather.WeatherData)
    ensures |short.name| < |long.name| ==>
      WeatherText(short)[3 + |short.name|] == '\n'
      && WeatherText(long)[3 + |short.name|] == long.name[|short.name|]
  {
  }

  /** Where the shorter temperature ends, after equal-length names, the longer one's reply has a temperature character. */
  lemma LineBreakAfterTemperature(short: Weather.WeatherData, long: Weather.WeatherData)
    requires |short.name| == |long.name|
    ensures |short.temperature| < |long.temperature| ==>
      WeatherText(short)[7 + |short.name| + |short.temperature|] == '\n'
      && WeatherText(long)[7 + |short.name| + |short.temperature|] == long.temperature[|short.temperature|]
  {
  }

  predicate IsKnown(command: string)
  {
    command == "help" || command == "sayhi" || command == "weather" || command == "usage"
  }

  /**
   * The `switch` of `handleUpdate`. In the weather branch the error text is
   * computed and then discarded: the record is dereferenced whatever the
   * error, which panics exactly when the lookup returned an error.
   */
  function Reply(command: string, args: string, env: Env): (r: Outcome)
    ensures !IsKnown(command) ==> r == Answer(UnknownCommand)
    ensures (command == "help" || command == "sayhi" || command == "usage") && args != ""
            ==> r == Answer(RejectArgs)
    ensures command == "help" && args == "" ==> r == Answer(Menu)
    ensures command == "sayhi" && args == "" ==> r == Answer(Greeting)
    ensures command == "usage" && args == "" ==>
      (r.Crash? <==> env.usage.Aborted?)
      && (env.usage.Report? ==> r == Answer(Lightsail.UsageText(env.usage.usage)))
    ensures command == "weather" && args == "" ==> r == Answer(WeatherHint)
    ensures command == "weather" && args != "" ==>
      var info := Weather.GetCityWeather(args, env.apiKey, env.geo, env.conditions);
      (r.Crash? <==> info.err.Some?)
      && (r.Answer? ==> r.text == WeatherText(info.data.value))
  {
    if command == "help" then
      var reply := HandleDefaultCommand(args);
      if reply != "" then Answer(reply) else Answer(Menu)
    else if command == "sayhi" then
      var reply := HandleDefaultCommand(args);
      if reply != "" then Answer(reply) else Answer(Greeting)
    else if command == "weather" then
      if args == "" then Answer(WeatherHint)
      else
        var info := Weather.GetCityWeather(args, env.apiKey, env.geo, env.conditions);
        // the text set when the lookup reports an error ...
        var text := if info.err.Some? then "error: " + info.err.value else "";
        // ... is followed by `weatherInfo.Name`, which panics on the nil record,
        if info.data.None? then Crash
        else
          // ... and is replaced in every case that gets this far
          var text := WeatherText(info.data.value);
          Answer(text)
    else if command == "usage" then
      var reply := HandleDefaultCommand(args);
      if reply != "" then Answer(reply)
      else match env.usage
        case Aborted => Crash
        case Report(u) => Answer(Lightsail.UsageText(u))
    else Answer(UnknownCommand)
  }

  /** The text set on a weather error never reaches a reply. */
  lemma WeatherErrorNeverSent(args: string, env: Env, e: string)
    requires args != ""
    ensures Reply("weather", args, env) != Answer("error: " + e)
  {
    var r := Reply("weather", args, env);
    if r.Answer? {
      var text := r.text;
      assert text[..3] == "城市：";
      assert text[0] == '城';
      assert ("error: " + e)[0] == 'e';
    }
  }

  /** The usage call is made only for `usage` without arguments. */
  lemma UsageOnlyWhenAsked(command: string, args: string, env: Env, usage: Lightsail.UsageOutcome)
    requires command != "usage" || args != ""
    ensures Reply(command, args, env) == Reply(command, args, env.(usage := usage))
  {
  }

  /** The weather services are asked only for `weather` with a city name. */
  lemma WeatherOnlyWhenAsked(command: string, args: string, env: Env,
                             geo: string -> Weather.Fetched<Weather.GeoResp>,
                             conditions: string -> Weather.Fetched<Weather.WeatherResp>)
    requires command != "weather" || args == ""
    ensures Reply(command, args, env) == Reply(command, args, env.(geo := geo, conditions := conditions))
  {
  }

  /** What handling one update leads to. */
  datatype StepResult = Ignored | Replied(send: Send) | Crashed

  /** One iteration of the loop of `handleUpdate`. */
  function Step(u: Update, env: Env): (r: StepResult)
    ensures r.Ignored? <==> u.message.None? || !u.message.value.isCommand
    ensures r.Replied? ==> r.send.chatId == u.message.value.chatId
    ensures u.message.Some? && u.message.value.isCommand && u.message.value.text == "" ==> r.Crashed?
  {
    match u.message
    case None => Ignored
    case Some(m) =>
      if !m.isCommand then Ignored
      // `message[1:]` in parseCommand panics on the empty text
      else if m.text == "" then Crashed
      else
        var (command, args) := ParseCommand(m.text);
        match Reply(command, args, env)
        case Answer(text) => Replied(Send(m.chatId, text))
        case Crash => Crashed
  }

  /** A command message `/command args` is answered with the reply to that command and those arguments. */
  lemma StepCommand(u: Update, env: Env, command: string, args: string)
    requires u.message.Some? && u.message.value.isCommand
    requires ' ' !in command
    requires |u.message.value.text| >= 1
    requires u.message.value.text[1..] == command + " " + args
    ensures Step(u, env) == match Reply(command, args, env)
      case Answer(text) => Replied(Send(u.message.value.chatId, text))
      case Crash => Crashed
  {
    ParseCommandUnique(u.message.value.text, command, args);
  }

  /** A command message `/command` without a space is answered as a command without arguments. */
  lemma StepBareCommand(u: Update, env: Env, command: string)
    requires u.message.Some? && u.message.value.isCommand
    requires ' ' !in command
    requires |u.message.value.text| >= 1
    requires u.message.value.text[1..] == command
    ensures Step(u, env) == match Reply(command, "", env)
      case Answer(text) => Replied(Send(u.message.value.chatId, text))
      case Crash => Crashed
  {
  }

  /**
   * `/weather shenzhen` against services that resolve the city and report
   * 28 degrees observed at `2024-05-01T10:00+08:00`.
   */
  lemma ShenzhenExample(chatId: int, env: Env)
    requires env.geo(Weather.GeoUrl("shenzhen", env.apiKey))
             == Weather.Body(Weather.GeoResp("200", [Weather.Location("Shenzhen", "101280601")]))
    requires env.conditions(Weather.WeatherUrl("101280601", env.apiKey))
             == Weather.Body(Weather.WeatherResp("200", Weather.Now("28", "Sunny", "2024-05-01T10:00+08:00")))
    ensures Step(Update(Some(Message(chatId, "/weather shenzhen", true))), env)
            == Replied(Send(chatId, WeatherText(Weather.WeatherData("Shenzhen", "28", "2024-05-01 10:00"))))
  {
    var u := Update(Some(Message(chatId, "/weather shenzhen", true)));
    assert u.message.value.text[1..] == "weather" + " " + "shenzhen";
    StepCommand(u, env, "weather", "shenzhen");
    Weather.ShenzhenWeather(env.apiKey, env.geo, env.conditions);
  }

  /** One iteration of the loop as a function value, for the trace below. */
  function StepOf(env: Env): Update -> StepResult
  {
    u => Step(u, env)
  }

  /** The sends so far, and whether the process has panicked. */
  datatype Trace = Trace(sends: seq<Send>, crashed: bool)

  /** The trace after the updates `us`, each handled by `step`, in order until the first panic. */
  function Run(us: seq<Update>, step: Update -> StepResult): (r: Trace)
    ensures |r.sends| <= |us|
    ensures r.crashed <==> !NoCrash(us, step)
    decreases |us|
  {
    if us == [] then Trace([], false)
    else
      var before := Run(us[..|us| - 1], step);
      assert forall i :: 0 <= i < |us| - 1 ==> us[..|us| - 1][i] == us[i];
      if before.crashed then before
      else match step(us[|us| - 1])
        case Ignored => before
        case Replied(s) => Trace(before.sends + [s], false)
        case Crashed => Trace(before.sends, true)
  }

  /** The sends of one update handled without a panic. */
  function SendsOf(r: StepResult): seq<Send>
  {
    if r.Replied? then [r.send] else []
  }

  /** Reference definition: every update's sends, concatenated in input order. */
  function Replies(us: seq<Update>, step: Update -> StepResult): seq<Send>
  {
    if us == [] then [] else SendsOf(step(us[0])) + Replies(us[1..], step)
  }

  /** Replies respects the order of the updates. */
  lemma {:induction false} RepliesAppend(a: seq<Update>, b: seq<Update>, step: Update -> StepResult)
    ensures Replies(a + b, step) == Replies(a, step) + Replies(b, step)
  {
    if a != [] {
      assert (a + b)[0] == a[0] && (a + b)[1..] == a[1..] + b;
      RepliesAppend(a[1..], b, step);
    } else {
      assert a + b == b;
    }
  }

  lemma RepliesSingle(u: Update, step: Update -> StepResult)
    ensures Replies([u], step) == SendsOf(step(u))
  {
    assert [u][0] == u && [u][1..] == [];
  }

  /** An ignored update sends nothing; any other update that does not panic sends one reply to its own chat. */
  lemma RepliesOne(u: Update, env: Env)
    requires !Step(u, env).Crashed?
    ensures u.message.None? || !u.message.value.isCommand ==> Replies([u], StepOf(env)) == []
    ensures u.message.Some? && u.message.value.isCommand ==>
      |Replies([u], StepOf(env))| == 1 && Replies([u], StepOf(env))[0].chatId == u.message.value.chatId
  {
    RepliesSingle(u, StepOf(env));
  }

  predicate NoCrash(us: seq<Update>, step: Update -> StepResult)
  {
    forall i :: 0 <= i < |us| ==> !step(us[i]).Crashed?
  }

  /** Once the process has panicked no further update is handled. */
  lemma {:induction false} RunStaysCrashed(a: seq<Update>, b: seq<Update>, step: Update -> StepResult)
    requires Run(a, step).crashed
    ensures Run(a + b, step) == Run(a, step)
    decreases |b|
  {
    if b != [] {
      var c := a + b[..|b| - 1];
      assert (a + b)[..|a + b| - 1] == c;
      assert b[..|b| - 1] + [b[|b| - 1]] == b;
      RunStaysCrashed(a, b[..|b| - 1], step);
    } else {
      assert a + b == a;
    }
  }

  /** Without a panic, the loop sends exactly the replies of the reference definition. */
  lemma {:induction false} RunWithoutCrash(us: seq<Update>, step: Update -> StepResult)
    requires NoCrash(us, step)
    ensures Run(us, step) == Trace(Replies(us, step), false)
    decreases |us|
  {
    if us != [] {
      var init, last := us[..|us| - 1], us[|us| - 1];
      assert NoCrash(init, step) by {
        forall i | 0 <= i < |init| ensures !step(init[i]).Crashed? {
          assert init[i] == us[i];
        }
      }
      RunWithoutCrash(init, step);
      assert us == init + [last];
      RepliesAppend(init, [last], step);
      RepliesSingle(last, step);
    }
  }

  /** At the first panic, the loop has sent exactly the replies of the updates before it. */
  lemma RunUntilCrash(us: seq<Update>, k: nat, step: Update -> StepResult)
    requires k < |us| && step(us[k]).Crashed?
    requires NoCrash(us[..k], step)
    ensures Run(us, step) == Trace(Replies(us[..k], step), true)
  {
    var before, after := us[..k], us[k + 1..];
    RunWithoutCrash(before, step);
    RunCrashesAt(before, us[k], step);
    RunStaysCrashed(before + [us[k]], after, step);
    SplitAround(us, k);
  }

  lemma SplitAround(us: seq<Update>, k: nat)
    requires k < |us|
    ensures us[..k] + [us[k]] + us[k + 1..] == us
  {
  }

  /** What one iteration of the loop does to an update, step by step as the loop body takes it. */
  lemma StepOfIs(u: Update, env: Env)
    ensures u.message.None? ==> StepOf(env)(u) == Ignored
    ensures u.message.Some? && !u.message.value.isCommand ==> StepOf(env)(u) == Ignored
    ensures u.message.Some? && u.message.value.isCommand && u.message.value.text == "" ==> StepOf(env)(u) == Crashed
    ensures u.message.Some? && u.message.value.isCommand && u.message.value.text != "" ==>
      var (command, args) := ParseCommand(u.message.value.text);
      StepOf(env)(u) == match Reply(command, args, env)
        case Answer(text) => Replied(Send(u.message.value.chatId, text))
        case Crash => Crashed
  {
  }

  /** Handling the next update after a prefix without a panic. */
  lemma RunNext(us: seq<Update>, i: nat, step: Update -> StepResult)
    requires i < |us| && !Run(us[..i], step).crashed
    ensures Run(us[..i + 1], step) == match step(us[i])
      case Ignored => Run(us[..i], step)
      case Replied(s) => Trace(Run(us[..i], step).sends + [s], false)
      case Crashed => Trace(Run(us[..i], step).sends, true)
  {
    assert us[..i + 1][..i] == us[..i];
  }

  /** A prefix that ends in a panic is the trace of the whole sequence. */
  lemma RunCrashedPrefix(us: seq<Update>, i: nat, step: Update -> StepResult)
    requires i <= |us| && Run(us[..i], step).crashed
    ensures Run(us, step) == Run(us[..i], step)
  {
    RunStaysCrashed(us[..i], us[i..], step);
    assert us[..i] + us[i..] == us;
  }

  /** A panicking update after a trace without a panic ends the trace, keeping its sends. */
  lemma RunCrashesAt(before: seq<Update>, u: Update, step: Update -> StepResult)
    requires !Run(before, step).crashed && step(u).Crashed?
    ensures Run(before + [u], step) == Trace(Run(before, step).sends, true)
  {
    var upTo := before + [u];
    assert upTo[..|upTo| - 1] == before && upTo[|upTo| - 1] == u;
  }

  /**
   * `handleUpdate` for one worker: drain the updates in order, skip the
   * non-messages and non-commands, send one reply for each other update,
   * and stop at the first panic.
   */
  method HandleUpdates(updates: seq<Update>, env: Env) returns (sends: seq<Send>, crashed: bool)
    ensures Trace(sends, crashed) == Run(updates, StepOf(env))
  {
    sends, crashed := [], false;
    var i := 0;
    while i < |updates| && !crashed
      invariant 0 <= i <= |updates|
      invariant Trace(sends, crashed) == Run(updates[..i], StepOf(env))
    {
      var update := updates[i];
      RunNext(updates, i, StepOf(env));
      StepOfIs(update, env);
      i := i + 1;
      if update.message.None? {
        continue;
      }
      var message := update.message.value;
      if !message.isCommand {
        continue;
      }
      if message.text == "" {
        crashed := true;
        continue;
      }
      var (command, args) := ParseCommand(message.text);
      var reply := Reply(command, args, env);
      if reply.Crash? {
        crashed := true;
        continue;
      }
      sends := sends + [Send(message.chatId, reply.text)];
    }
    if crashed {
      RunCrashedPrefix(updates, i, StepOf(env));
    } else {
      assert updates[..i] == updates;
    }
  }
}
