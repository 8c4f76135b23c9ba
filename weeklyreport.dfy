// The weekly-report event: a trader's performance over the week. The
// validator decides whether the payload is accepted; the background job posts
// the report, with its image, to every push target whose channel the bot can
// see and post in, and counts the sends that returned True.
module WeeklyReport {
  import opened Text
  import opened Values
  import opened Validation
  import opened Delivery
  import opened PushTargets
  import opened NumberFormat

  const WeeklyRequired: set<string> := {
    "trader_uid", "trader_name", "trader_url", "trader_detail_url",
    "total_roi", "total_pnl", "total_trades",
    "win_trades", "loss_trades", "win_rate"
  }

  const MissingLead: string := "缺少欄位: "
  const NumbersMsg: string := "數值欄位必須為正確的數字格式"
  const WinRateMsg: string := "勝率必須在 0-100 之間"
  const StartedMsg: string := "週報推送已開始處理"
  const InternalMsg: string := "內部服務錯誤"

  /** `float()` of the ROI, PnL and win rate and `int()` of the three trade
      counts all succeed. */
  predicate NumbersOk(num: NumberSyntax, d: map<string, Value>) {
    && FloatOf(num, Get(d, "total_roi")).Some?
    && FloatOf(num, Get(d, "total_pnl")).Some?
    && IntOf(num, Get(d, "total_trades")).Some?
    && IntOf(num, Get(d, "win_trades")).Some?
    && IntOf(num, Get(d, "loss_trades")).Some?
    && FloatOf(num, Get(d, "win_rate")).Some?
  }

  /** `validate_weekly_report`: the missing fields, then the numbers, then
      the win-rate range; the first failure is the ValueError raised. */
  function ValidateWeeklyReport(num: NumberSyntax, d: map<string, Value>): (r: Check)
    ensures r.Fail? && r.rejection.Missing? <==> MissingFields(d, WeeklyRequired) != {}
    ensures MissingFields(d, WeeklyRequired) != {} ==> r == Fail(Missing(MissingLead, MissingFields(d, WeeklyRequired)))
  {
    var missing := MissingFields(d, WeeklyRequired);
    if missing != {} then Fail(Missing(MissingLead, missing))
    else if !NumbersOk(num, d) then Fail(Invalid(NumbersMsg))
    else
      var rate := FloatOf(num, Get(d, "win_rate")).value;
      if !(0.0 <= rate <= 100.0) then Fail(Invalid(WinRateMsg)) else Pass
  }

  /** Everything the validator demands of an accepted payload. */
  predicate WeeklyWellFormed(num: NumberSyntax, d: map<string, Value>) {
    && (forall f :: f in WeeklyRequired ==> f in d && Truthy(d[f]))
    && NumbersOk(num, d)
    && 0.0 <= FloatOf(num, d["win_rate"]).value <= 100.0
  }

  /** A payload is accepted exactly when every rule holds. */
  lemma {:induction false} WeeklyAccepted(num: NumberSyntax, d: map<string, Value>)
    ensures ValidateWeeklyReport(num, d) == Pass <==> WeeklyWellFormed(num, d)
  {
    NoneMissingIffAllTruthy(d, WeeklyRequired);
  }

  /** A count of 0 is falsy, so a week without wins is rejected as missing
      `win_trades`, and likewise `total_roi` of 0 or a `win_rate` of 0. */
  lemma {:induction false} ZeroCountsAsMissing(num: NumberSyntax, d: map<string, Value>, f: string)
    requires f in WeeklyRequired && f in d && (d[f] == VInt(0) || d[f] == VStr(""))
    ensures ValidateWeeklyReport(num, d).Fail?
    ensures ValidateWeeklyReport(num, d).rejection.Missing?
    ensures f in ValidateWeeklyReport(num, d).rejection.fields
  {
    assert f in MissingFields(d, WeeklyRequired);
  }

  /** The range check is inclusive at both ends: 0 passes it and 100 passes
      it, and anything beyond either end is rejected with its own message. */
  lemma {:induction false} WinRateBounds(num: NumberSyntax, d: map<string, Value>, rate: real)
    requires MissingFields(d, WeeklyRequired) == {} && NumbersOk(num, d)
    requires FloatOf(num, Get(d, "win_rate")) == Some(rate)
    ensures ValidateWeeklyReport(num, d) == Pass <==> 0.0 <= rate <= 100.0
    ensures rate < 0.0 || rate > 100.0 ==> ValidateWeeklyReport(num, d) == Fail(Invalid(WinRateMsg))
  {
  }

  // ---------------------------------------------------------------------
  // The report text

  /** The numbers of a report: the trade counts and the ROI as read by
      `int()` and `float()`, and the formatted win rate. */
  datatype Figures = Figures(total: int, wins: int, roi: real, winRate: string)

  /** The figures; None where `int()` or `float()` raises on a count or the
      ROI (0 stands in for an absent field). */
  function FiguresOf(num: NumberSyntax, d: map<string, Value>): Option<Figures> {
    var total := IntOf(num, GetOr(d, "total_trades", VInt(0)));
    var wins := IntOf(num, GetOr(d, "win_trades", VInt(0)));
    var roi := FloatOf(num, GetOr(d, "total_roi", VInt(0)));
    if total.None? || wins.None? || roi.None? then None
    else Some(Figures(total.value, wins.value, roi.value, FormatFloat(num, GetOr(d, "win_rate", VInt(0)))))
  }

  /** The fire emoji for a non-negative ROI, the falling chart otherwise. */
  function RoiEmoji(roi: real): string {
    if roi >= 0.0 then "\U{1F525}" else "\U{1F4C9}"
  }

  function TraderName(d: map<string, Value>): string {
    Str(GetOr(d, "trader_name", VStr("Trader")))
  }

  /** `format_weekly_report_text(data, include_link=False)`: the losses are
      the total less the wins, and the ROI is printed as a percentage. */
  function WeeklyBody(name: string, f: Figures): string {
    "\U{26A1}\U{FE0F}" + name + " Weekly Performance Report\n\n"
    + RoiEmoji(f.roi) + " TOTAL R: " + FormatReal(f.roi * 100.0) + "%\n\n"
    + "\U{1F4C8} Total Trades: " + IntToString(f.total) + "\n"
    + "\U{2705} Wins: " + IntToString(f.wins) + "\n"
    + "\U{274C} Losses: " + IntToString(f.total - f.wins) + "\n"
    + "\U{1F3C6} Win Rate: " + f.winRate + "%"
  }

  /** The detail link, with the formatter's defaults. */
  function WeeklyLink(d: map<string, Value>): string {
    AboutLink(TraderName(d), Str(GetOr(d, "trader_detail_url", VStr(""))))
  }

  /** The text of the report, None where formatting raises. */
  function WeeklyText(num: NumberSyntax, d: map<string, Value>, includeLink: bool): Option<string> {
    match FiguresOf(num, d)
    case None => None
    case Some(f) => Some(WithLink(WeeklyBody(TraderName(d), f), WeeklyLink(d), includeLink))
  }

  /** The supplied `loss_trades` plays no part in the text: the losses
      shown are always `total_trades - win_trades`. */
  lemma {:induction false} LossesIgnored(num: NumberSyntax, d: map<string, Value>, losses: Value, includeLink: bool)
    ensures WeeklyText(num, d["loss_trades" := losses], includeLink) == WeeklyText(num, d, includeLink)
  {
    var e := d["loss_trades" := losses];
    assert GetOr(e, "total_trades", VInt(0)) == GetOr(d, "total_trades", VInt(0));
    assert GetOr(e, "win_trades", VInt(0)) == GetOr(d, "win_trades", VInt(0));
    assert GetOr(e, "total_roi", VInt(0)) == GetOr(d, "total_roi", VInt(0));
    assert GetOr(e, "win_rate", VInt(0)) == GetOr(d, "win_rate", VInt(0));
    assert GetOr(e, "trader_name", VStr("Trader")) == GetOr(d, "trader_name", VStr("Trader"));
    assert GetOr(e, "trader_detail_url", VStr("")) == GetOr(d, "trader_detail_url", VStr(""));
  }

  /** The emoji follows the sign of the ROI, zero counting as gain. */
  lemma {:induction false} EmojiFollowsSign(roi: real)
    ensures RoiEmoji(roi) == "\U{1F525}" <==> roi >= 0.0
    ensures RoiEmoji(roi) == "\U{1F4C9}" <==> roi < 0.0
  {
    assert "\U{1F525}"[0] != "\U{1F4C9}"[0];
  }

  /** The text with the link is the text without it, a blank line and the
      link. */
  lemma {:induction false} WeeklyLinkAppended(num: NumberSyntax, d: map<string, Value>)
    requires FiguresOf(num, d).Some?
    ensures WeeklyText(num, d, true).value == WeeklyText(num, d, false).value + "\n\n" + WeeklyLink(d)
  {
  }

  /** An accepted payload always formats: its counts passed `int()` and its
      ROI `float()`. */
  lemma {:induction false} WellFormedFormats(num: NumberSyntax, d: map<string, Value>)
    requires WeeklyWellFormed(num, d)
    ensures FiguresOf(num, d).Some?
  {
    assert "total_trades" in WeeklyRequired && "win_trades" in WeeklyRequired && "total_roi" in WeeklyRequired;
  }

  // ---------------------------------------------------------------------
  // The background job

  /** A send task: the channel it posts to and what it posts. */
  datatype Task = Task(channel: int, send: Send)

  /** The tasks the preparation loop creates: one per target whose channel
      the bot sees and may post in, provided the text builds (`body` is
      None where formatting raised, which skips the target); the image is
      attached where the file exists and attaching is allowed. */
  function WeeklyTasks(targets: seq<Target>, body: Option<string>, link: string, image: string,
                       channels: map<int, Permissions>, fileExists: string -> bool): seq<Task>
    decreases |targets|
  {
    if targets == [] then []
    else
      var prev := WeeklyTasks(targets[..|targets| - 1], body, link, image, channels, fileExists);
      var t := targets[|targets| - 1];
      if Usable(t, body, channels) then
        prev + [Task(t.channel, SendWithImage(channels, t.channel, WithLink(body.value, link, t.jump == "1"), Some(image), fileExists))]
      else prev
  }

  lemma {:induction false} WeeklyTasksStep(targets: seq<Target>, i: int, body: Option<string>, link: string, image: string,
                        channels: map<int, Permissions>, fileExists: string -> bool)
    requires 0 <= i < |targets|
    ensures WeeklyTasks(targets[..i + 1], body, link, image, channels, fileExists)
      == var prev := WeeklyTasks(targets[..i], body, link, image, channels, fileExists);
         var t := targets[i];
         if Usable(t, body, channels) then
           prev + [Task(t.channel, SendWithImage(channels, t.channel, WithLink(body.value, link, t.jump == "1"), Some(image), fileExists))]
         else prev
  {
    assert targets[..i + 1][..i] == targets[..i];
  }

  /** A target gets a task when its channel is known and postable and the
      text was built. */
  predicate Usable(t: Target, body: Option<string>, channels: map<int, Permissions>) {
    t.channel in channels && channels[t.channel].sendMessages && body.Some?
  }

  /** The indices of the targets that get a task, in target order. */
  function TaskSources(targets: seq<Target>, body: Option<string>, channels: map<int, Permissions>): seq<nat>
    decreases |targets|
  {
    if targets == [] then []
    else
      var prev := TaskSources(targets[..|targets| - 1], body, channels);
      if Usable(targets[|targets| - 1], body, channels) then prev + [|targets| - 1] else prev
  }

  /** The sources are target indices in increasing order, and every usable
      target is one of them. */
  lemma {:induction false} TaskSourcesOrdered(targets: seq<Target>, body: Option<string>, channels: map<int, Permissions>)
    ensures var src := TaskSources(targets, body, channels);
      && |src| <= |targets|
      && (forall j :: 0 <= j < |src| ==> src[j] < |targets|)
      && (forall j, j' :: 0 <= j < j' < |src| ==> src[j] < src[j'])
      && (forall k :: 0 <= k < |targets| && Usable(targets[k], body, channels) ==> k in src)
    decreases |targets|
  {
    if targets != [] {
      var init := targets[..|targets| - 1];
      TaskSourcesOrdered(init, body, channels);
      var prevSrc := TaskSources(init, body, channels);
      forall k | 0 <= k < |init| && Usable(targets[k], body, channels)
        ensures k in prevSrc
      {
        assert targets[k] == init[k];
      }
    }
  }

  /** Task j comes from target TaskSources[j]: it posts to that target's
      channel, which the bot sees and may post in, with the text and the
      link chosen by that target. A failed format makes no task. */
  lemma {:induction false} WeeklyTasksPost(targets: seq<Target>, body: Option<string>, link: string, image: string,
                                           channels: map<int, Permissions>, fileExists: string -> bool)
    ensures var tasks := WeeklyTasks(targets, body, link, image, channels, fileExists);
      var src := TaskSources(targets, body, channels);
      && |tasks| == |src|
      && (body.None? ==> tasks == [])
      && forall j :: 0 <= j < |tasks| ==>
           && tasks[j].channel in channels && channels[tasks[j].channel].sendMessages
           && Posted(tasks[j].send)
           && src[j] < |targets| && tasks[j].channel == targets[src[j]].channel
           && tasks[j].send.text == WithLink(body.value, link, targets[src[j]].jump == "1")
    decreases |targets|
  {
    if targets != [] {
      var init := targets[..|targets| - 1];
      WeeklyTasksPost(init, body, link, image, channels, fileExists);
      var prevSrc := TaskSources(init, body, channels);
      forall j | 0 <= j < |prevSrc|
        ensures prevSrc[j] < |init| ==> targets[prevSrc[j]] == init[prevSrc[j]]
      {
      }
    }
  }

  /** When every target's channel is usable and the text builds, every
      target gets exactly one task, in target order. */
  lemma {:induction false} AllUsableAllTasks(targets: seq<Target>, body: string, link: string, image: string,
                                             channels: map<int, Permissions>, fileExists: string -> bool)
    requires forall k :: 0 <= k < |targets| ==> targets[k].channel in channels && channels[targets[k].channel].sendMessages
    ensures var tasks := WeeklyTasks(targets, Some(body), link, image, channels, fileExists);
      && |tasks| == |targets|
      && forall k :: 0 <= k < |targets| ==> tasks[k].channel == targets[k].channel
    decreases |targets|
  {
    if targets != [] {
      var init := targets[..|targets| - 1];
      AllUsableAllTasks(init, body, link, image, channels, fileExists);
    }
  }

  /** The preparation loop: targets whose channel is missing or not
      postable are skipped with `continue`, the rest get a task. */
  method PrepareWeeklyTasks(targets: seq<Target>, body: Option<string>, link: string, image: string,
                            channels: map<int, Permissions>, fileExists: string -> bool)
    returns (tasks: seq<Task>)
    ensures tasks == WeeklyTasks(targets, body, link, image, channels, fileExists)
  {
    tasks := [];
    var i := 0;
    while i < |targets|
      invariant 0 <= i <= |targets|
      invariant tasks == WeeklyTasks(targets[..i], body, link, image, channels, fileExists)
    {
      WeeklyTasksStep(targets, i, body, link, image, channels, fileExists);
      var t := targets[i];
      i := i + 1;
      if t.channel !in channels {
        continue;
      }
      if !channels[t.channel].sendMessages {
        continue;
      }
      if body.None? {
        continue;
      }
      var content := WithLink(body.value, link, t.jump == "1");
      tasks := tasks + [Task(t.channel, SendWithImage(channels, t.channel, content, Some(image), fileExists))];
    }
    assert targets[..i] == targets;
  }

  /** `send_discord_weekly_report` returns True when `channel.send` went
      through (`delivered` says, per channel, whether it did) and False when
      it raised. */
  function WeeklyResults(tasks: seq<Task>, delivered: int -> bool): (r: seq<TaskResult>)
    ensures |r| == |tasks|
  {
    seq(|tasks|, i requires 0 <= i < |tasks| => Returned(VBool(delivered(tasks[i].channel))))
  }

  /** The number of tasks whose channel took the message. */
  function DeliveredCount(tasks: seq<Task>, delivered: int -> bool): nat
    decreases |tasks|
  {
    if tasks == [] then 0
    else DeliveredCount(tasks[..|tasks| - 1], delivered) + (if delivered(tasks[|tasks| - 1].channel) then 1 else 0)
  }

  /** The True-count of the results is the number of delivered tasks: a
      send that raised returns False and is not counted. */
  lemma {:induction false} TrueCountIsDelivered(tasks: seq<Task>, delivered: int -> bool)
    ensures TrueCount(WeeklyResults(tasks, delivered)) == DeliveredCount(tasks, delivered)
    decreases |tasks|
  {
    if tasks != [] {
      var init := tasks[..|tasks| - 1];
      TrueCountIsDelivered(init, delivered);
      var r := WeeklyResults(tasks, delivered);
      assert r[..|r| - 1] == WeeklyResults(init, delivered);
    }
  }

  /** What `process_weekly_report` posts: nothing without a trader uid,
      push targets or an image path (`image` is what the renderer returned,
      None where it failed), else the prepared tasks. */
  function WeeklyReportTasks(num: NumberSyntax, d: map<string, Value>, resp: Option<Response>, image: Option<string>,
                             channels: map<int, Permissions>, fileExists: string -> bool): seq<Task>
  {
    if "trader_uid" !in d then []
    else
      var targets := Targets(num, Str(d["trader_uid"]), resp);
      if targets == [] || image.None? || image.value == [] then []
      else
        var body := match FiguresOf(num, d) case None => None case Some(f) => Some(WeeklyBody(TraderName(d), f));
        WeeklyTasks(targets, body, WeeklyLink(d), image.value, channels, fileExists)
  }

  /** The job: targets, then the image, then the tasks, then the number of
      sends that returned True. */
  method ProcessWeeklyReport(num: NumberSyntax, d: map<string, Value>, resp: Option<Response>, image: Option<string>,
                             channels: map<int, Permissions>, fileExists: string -> bool, delivered: int -> bool)
    returns (tasks: seq<Task>, successCount: nat)
    ensures tasks == WeeklyReportTasks(num, d, resp, image, channels, fileExists)
    ensures successCount == DeliveredCount(tasks, delivered)
    ensures successCount <= |tasks|
  {
    if "trader_uid" !in d {
      return [], 0;
    }
    var targets := GetPushTargets(num, Str(d["trader_uid"]), resp);
    if targets == [] || image.None? || image.value == [] {
      return [], 0;
    }
    var figures := FiguresOf(num, d);
    var body := match figures case None => None case Some(f) => Some(WeeklyBody(TraderName(d), f));
    tasks := PrepareWeeklyTasks(targets, body, WeeklyLink(d), image.value, channels, fileExists);
    var results := WeeklyResults(tasks, delivered);
    successCount := TrueCount(results);
    TrueCountIsDelivered(tasks, delivered);
    TrueCountBound(results);
    ReturnedCountBound(results);
  }

  // ---------------------------------------------------------------------
  // The HTTP handler

  /** The reply of `handle_weekly_report`: processing started, the
      validator's ValueError, or the internal-error reply for any other
      exception (a body that does not decode, or is not a dict, so that
      `data.get` raises). */
  datatype WeeklyReply = Started | Refused(rejection: Rejection) | InternalError

  /** The "status" field of a reply. */
  function WeeklyStatus(r: WeeklyReply): string {
    if r.Started? then "success" else "error"
  }

  /** The "message" field of a reply. The missing-field message lists the
      fields in Python's set order, which the model leaves open. */
  function WeeklyMessage(r: WeeklyReply): Option<string> {
    match r
    case Started => Some(StartedMsg)
    case InternalError => Some(InternalMsg)
    case Refused(Invalid(m)) => Some(m)
    case Refused(Missing(_, _)) => None
  }

  datatype WeeklyRun = WeeklyRun(reply: WeeklyReply, scheduled: bool)

  /** `handle_weekly_report`: no Content-Type check; decode, validate,
      schedule, acknowledge. */
  function HandleWeeklyReport(num: NumberSyntax, body: Option<Value>): (r: WeeklyRun)
    ensures r.scheduled <==> body.Some? && body.value.VDict? && WeeklyWellFormed(num, body.value.fields)
    ensures WeeklyStatus(r.reply) == "success" <==> r.scheduled
    ensures r.reply.Refused? ==>
      body.Some? && body.value.VDict? && ValidateWeeklyReport(num, body.value.fields) == Fail(r.reply.rejection)
    ensures r.reply == InternalError <==> body.None? || !body.value.VDict?
  {
    if body.None? || !body.value.VDict? then WeeklyRun(InternalError, false)
    else
      WeeklyAccepted(num, body.value.fields);
      var check := ValidateWeeklyReport(num, body.value.fields);
      if check.Fail? then WeeklyRun(Refused(check.rejection), false) else WeeklyRun(Started, true)
  }
}
