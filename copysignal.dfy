// The copy-signal event: a trader opened a position. The validator decides
// whether the payload is accepted; the background job posts one caption per
// push target, text only.
module CopySignal {
  import opened Text
  import opened Values
  import opened Validation
  import opened Delivery
  import opened PushTargets
  import opened Timestamp

  const CopyRequired: set<string> := {
    "trader_uid", "trader_name", "trader_pnl", "trader_pnlpercentage",
    "trader_detail_url", "pair", "base_coin", "quote_coin",
    "pair_leverage", "pair_type", "price", "time", "trader_url",
    "pair_side", "pair_margin_type"
  }

  const MissingLead: string := "缺少欄位: "
  const NumbersMsg: string := "trader_pnlpercentage / pair_leverage / trader_pnl 必須為數字格式"
  const SignMsg: string := "trader_pnl 與 trader_pnlpercentage 正負號不一致"
  const TypeMsg: string := "pair_type 只能是 'buy' 或 'sell'"
  const SideMsg: string := "pair_side 只能是 '1'(Long) 或 '2'(Short)"
  const MarginMsg: string := "pair_margin_type 只能是 '1'(Cross) 或 '2'(Isolated)"
  const TimeNotNumberMsg: string := "time 必須為毫秒級時間戳 (數字格式)"
  const TimeTooShortMsg: string := "time 必須為毫秒級時間戳 (13 位)"

  /** Every message a ValueError of the validator can carry besides the
      missing-fields one. */
  const CopyMessages: set<string> := {
    NumbersMsg, SignMsg, TypeMsg, SideMsg, MarginMsg, TimeNotNumberMsg, TimeTooShortMsg
  }

  /** The numbers the validator reads, when all three parse. */
  predicate NumbersOk(num: NumberSyntax, d: map<string, Value>) {
    && FloatOf(num, Get(d, "trader_pnl")).Some?
    && FloatOf(num, Get(d, "trader_pnlpercentage")).Some?
    && FloatOf(num, Get(d, "pair_leverage")).Some?
  }

  /** `(pnl >= 0) ^ (pnl_perc >= 0)` is false: zero counts as positive. */
  predicate SignsAgree(num: NumberSyntax, d: map<string, Value>)
    requires NumbersOk(num, d)
  {
    (FloatOf(num, Get(d, "trader_pnl")).value >= 0.0) == (FloatOf(num, Get(d, "trader_pnlpercentage")).value >= 0.0)
  }

  /** `data["pair_type"] in {"buy", "sell"}`; a list or dict cannot be
      hashed, which raises TypeError instead. */
  predicate Unhashable(v: Value) {
    v.VList? || v.VDict?
  }

  /** `validate_copy_signal`. A body that is not a dict fails at `.get` with
      AttributeError, which is not a ValueError. */
  function ValidateCopySignal(num: NumberSyntax, data: Value): (r: Check)
    ensures r.Fail? && r.rejection.Missing? ==>
      r.rejection.lead == MissingLead && r.rejection.fields != {} && r.rejection.fields <= CopyRequired
    ensures data.VDict? ==> (r.Fail? && r.rejection.Missing? <==> MissingFields(data.fields, CopyRequired) != {})
    ensures data.VDict? && MissingFields(data.fields, CopyRequired) != {} ==>
      r == Fail(Missing(MissingLead, MissingFields(data.fields, CopyRequired)))
    ensures r.Fail? && r.rejection.Invalid? ==> r.rejection.message in CopyMessages
    ensures r == Crash <==> (!data.VDict? || (MissingFields(data.fields, CopyRequired) == {}
      && NumbersOk(num, data.fields) && SignsAgree(num, data.fields)
      && Unhashable(Get(data.fields, "pair_type"))))
  {
    if !data.VDict? then Crash
    else
      var d := data.fields;
      var missing := MissingFields(d, CopyRequired);
      if missing != {} then Fail(Missing(MissingLead, missing))
      else if !NumbersOk(num, d) then Fail(Invalid(NumbersMsg))
      else if !SignsAgree(num, d) then Fail(Invalid(SignMsg))
      else if Unhashable(Get(d, "pair_type")) then Crash
      else if Get(d, "pair_type") != VStr("buy") && Get(d, "pair_type") != VStr("sell") then Fail(Invalid(TypeMsg))
      else if !CodeOk(Get(d, "pair_side")) then Fail(Invalid(SideMsg))
      else if !CodeOk(Get(d, "pair_margin_type")) then Fail(Invalid(MarginMsg))
      else
        match MillisCheck(num, Get(d, "time"), TimeNotNumberMsg, TimeTooShortMsg)
        case None => Pass
        case Some(rej) => Fail(rej)
  }

  /** Everything the validator demands of an accepted payload. */
  predicate CopySignalWellFormed(num: NumberSyntax, d: map<string, Value>) {
    && (forall f :: f in CopyRequired ==> f in d && Truthy(d[f]))
    && NumbersOk(num, d)
    && SignsAgree(num, d)
    && (d["pair_type"] == VStr("buy") || d["pair_type"] == VStr("sell"))
    && CodeOk(d["pair_side"])
    && CodeOk(d["pair_margin_type"])
    && IntOfFloat(num, d["time"]).Some? && IntOfFloat(num, d["time"]).value >= MinMillis
  }

  /** A payload is accepted exactly when it is a dict meeting every rule. */
  lemma {:induction false} CopySignalAccepted(num: NumberSyntax, data: Value)
    ensures ValidateCopySignal(num, data) == Pass <==> data.VDict? && CopySignalWellFormed(num, data.fields)
  {
    if data.VDict? {
      NoneMissingIffAllTruthy(data.fields, CopyRequired);
      MillisCheckReasons(num, Get(data.fields, "time"), TimeNotNumberMsg, TimeTooShortMsg);
    }
  }

  /** With every field present and numeric, opposite signs of the profit and
      its percentage are rejected, a zero profit counting as positive. */
  lemma {:induction false} SignMismatchRejected(num: NumberSyntax, d: map<string, Value>, pnl: real, perc: real)
    requires forall f :: f in CopyRequired ==> f in d && Truthy(d[f])
    requires FloatOf(num, d["pair_leverage"]).Some?
    requires FloatOf(num, d["trader_pnl"]) == Some(pnl) && FloatOf(num, d["trader_pnlpercentage"]) == Some(perc)
    requires (pnl >= 0.0) != (perc >= 0.0)
    ensures ValidateCopySignal(num, VDict(d)) == Fail(Invalid(SignMsg))
  {
    NoneMissingIffAllTruthy(d, CopyRequired);
  }

  // ---------------------------------------------------------------------
  // The caption

  /** `pair_type_map.get(str(v).lower(), str(v))`. */
  function TypeLabel(v: Value): string {
    var raw := Str(v);
    var key := Lower(raw);
    if key == "buy" then "Open" else if key == "sell" then "Close" else raw
  }

  /** The caption without its detail line, which ends in a newline. */
  function Headline(d: map<string, Value>, time: string): string
    requires "trader_name" in d && "pair" in d && "pair_leverage" in d && "price" in d
  {
    "\U{26A1}\U{FE0F}**" + Str(d["trader_name"]) + "** New Trade Open\n\n"
    + "\U{1F4E2}" + Str(d["pair"]) + "  " + MarginLabel(GetOr(d, "pair_margin_type", VStr(""))) + " "
    + Str(d["pair_leverage"]) + "X\n\n"
    + "\U{23F0}Time: " + time + " (UTC+0)\n"
    + "\U{27A1}\U{FE0F}Direction: " + TypeLabel(GetOr(d, "pair_type", VStr(""))) + " "
    + SideLabel(GetOr(d, "pair_side", VStr(""))) + "\n"
    + "\U{1F3AF}Entry Price: " + Str(d["price"]) + "\n"
  }

  /** The keys a caption subscripts; a missing one raises KeyError. */
  predicate CaptionKeys(d: map<string, Value>, jump: string) {
    "trader_name" in d && "pair" in d && "pair_leverage" in d && "price" in d
    && (jump == "1" ==> "trader_detail_url" in d)
  }

  /** The caption for a target with this jump flag; None where it raises. */
  function Caption(d: map<string, Value>, time: string, jump: string): Option<string> {
    if !CaptionKeys(d, jump) then None
    else
      var detail := if jump == "1" then AboutLink(Str(d["trader_name"]), Str(d["trader_detail_url"])) else "";
      Some(Headline(d, time) + detail)
  }

  lemma {:induction false} HeadlineEndsInNewline(d: map<string, Value>, time: string)
    requires "trader_name" in d && "pair" in d && "pair_leverage" in d && "price" in d
    ensures var h := Headline(d, time); |h| > 0 && h[|h| - 1] == '\n'
  {
  }

  /** A caption ends with the trader's detail link exactly when the target's
      jump flag is "1"; otherwise it ends right after the entry price. */
  lemma {:induction false} CaptionLinkIffJump(d: map<string, Value>, time: string, jump: string)
    requires Caption(d, time, jump).Some?
    ensures var link := AboutLink(Str(Get(d, "trader_name")), Str(Get(d, "trader_detail_url")));
      EndsWith(Caption(d, time, jump).value, link) <==> jump == "1"
  {
    var link := AboutLink(Str(Get(d, "trader_name")), Str(Get(d, "trader_detail_url")));
    var c := Caption(d, time, jump).value;
    var h := Headline(d, time);
    HeadlineEndsInNewline(d, time);
    assert link[|link| - 1] == ')';
    if jump == "1" {
      assert c == h + link;
      assert c[|c| - |link|..] == link;
    } else {
      assert c == h;
      assert c[|c| - 1] != link[|link| - 1];
    }
  }

  /** Two targets of one signal get the same caption up to the link. */
  lemma {:induction false} CaptionsDifferByLink(d: map<string, Value>, time: string, other: string)
    requires CaptionKeys(d, "1") && other != "1"
    ensures Caption(d, time, other).Some?
    ensures Caption(d, time, "1").value
      == Caption(d, time, other).value + AboutLink(Str(d["trader_name"]), Str(d["trader_detail_url"]))
  {
    CaptionUnlinked(d, time, other);
    CaptionLinked(d, time);
  }

  lemma {:induction false} CaptionUnlinked(d: map<string, Value>, time: string, jump: string)
    requires CaptionKeys(d, jump) && jump != "1"
    ensures Caption(d, time, jump) == Some(Headline(d, time))
  {
    var h := Headline(d, time);
    assert h + "" == h;
  }

  lemma {:induction false} CaptionLinked(d: map<string, Value>, time: string)
    requires CaptionKeys(d, "1")
    ensures Caption(d, time, "1")
      == Some(Headline(d, time) + AboutLink(Str(d["trader_name"]), Str(d["trader_detail_url"])))
  {
  }

  // ---------------------------------------------------------------------
  // The background job

  /** The send of one target's caption: text only. */
  function TargetSend(channels: map<int, Permissions>, t: Target, caption: string, fileExists: string -> bool): Send {
    SendWithImage(channels, t.channel, caption, None, fileExists)
  }

  /** Whether every target's caption can be built. */
  predicate CaptionsBuild(d: map<string, Value>, time: string, targets: seq<Target>) {
    forall i :: 0 <= i < |targets| ==> Caption(d, time, targets[i].jump).Some?
  }

  /** The sends of the targets, in target order. */
  function FanOut(d: map<string, Value>, time: string, targets: seq<Target>,
                  channels: map<int, Permissions>, fileExists: string -> bool): seq<Send>
    requires CaptionsBuild(d, time, targets)
  {
    seq(|targets|, i requires 0 <= i < |targets| =>
      TargetSend(channels, targets[i], Caption(d, time, targets[i].jump).value, fileExists))
  }

  /** One more target extends the sends by that target's send. */
  lemma {:induction false} FanOutStep(d: map<string, Value>, time: string, targets: seq<Target>, i: int,
                   channels: map<int, Permissions>, fileExists: string -> bool)
    requires 0 <= i < |targets|
    requires CaptionsBuild(d, time, targets[..i]) && Caption(d, time, targets[i].jump).Some?
    ensures CaptionsBuild(d, time, targets[..i + 1])
    ensures FanOut(d, time, targets[..i + 1], channels, fileExists)
      == FanOut(d, time, targets[..i], channels, fileExists)
         + [TargetSend(channels, targets[i], Caption(d, time, targets[i].jump).value, fileExists)]
  {
    CaptionsBuildStep(d, time, targets, i);
    FanOutSnoc(d, time, targets[..i + 1], channels, fileExists);
    assert targets[..i + 1][..i] == targets[..i];
  }

  lemma {:induction false} CaptionsBuildStep(d: map<string, Value>, time: string, targets: seq<Target>, i: int)
    requires 0 <= i < |targets|
    requires CaptionsBuild(d, time, targets[..i]) && Caption(d, time, targets[i].jump).Some?
    ensures CaptionsBuild(d, time, targets[..i + 1])
  {
    var ts := targets[..i + 1];
    forall k | 0 <= k < |ts| ensures Caption(d, time, ts[k].jump).Some? {
      if k < i {
        assert ts[k] == targets[..i][k];
      }
    }
  }

  /** The sends of a non-empty run are those of all but its last target,
      then the last target's send. */
  lemma {:induction false} FanOutSnoc(d: map<string, Value>, time: string, ts: seq<Target>,
                                      channels: map<int, Permissions>, fileExists: string -> bool)
    requires ts != [] && CaptionsBuild(d, time, ts)
    ensures CaptionsBuild(d, time, ts[..|ts| - 1])
    ensures FanOut(d, time, ts, channels, fileExists)
      == FanOut(d, time, ts[..|ts| - 1], channels, fileExists)
         + [TargetSend(channels, ts[|ts| - 1], Caption(d, time, ts[|ts| - 1].jump).value, fileExists)]
  {
    var init := ts[..|ts| - 1];
    forall k | 0 <= k < |init| ensures init[k] == ts[k] {
    }
  }

  /** What `process_copy_signal_discord` posts: nothing without a trader
      uid or push targets, nothing if any caption raises (the tasks are
      awaited only after every caption is built), else one text-only send per
      target in target order. */
  function CopySignalSends(num: NumberSyntax, d: map<string, Value>, resp: Option<Response>,
                           channels: map<int, Permissions>, fileExists: string -> bool): seq<Send>
  {
    if "trader_uid" !in d then []
    else
      var targets := Targets(num, Str(d["trader_uid"]), resp);
      var time := FormatTimestampMs(num, Get(d, "time"));
      if CaptionsBuild(d, time, targets) then FanOut(d, time, targets, channels, fileExists) else []
  }

  /** The loop that builds one send task per target, stopping at the
      first caption that raises. */
  method BuildSends(d: map<string, Value>, time: string, targets: seq<Target>,
                    channels: map<int, Permissions>, fileExists: string -> bool)
    returns (built: bool, tasks: seq<Send>)
    ensures built <==> CaptionsBuild(d, time, targets)
    ensures built ==> tasks == FanOut(d, time, targets, channels, fileExists)
  {
    tasks := [];
    var i := 0;
    while i < |targets|
      invariant 0 <= i <= |targets|
      invariant CaptionsBuild(d, time, targets[..i])
      invariant tasks == FanOut(d, time, targets[..i], channels, fileExists)
    {
      var caption := Caption(d, time, targets[i].jump);
      if caption.None? {
        return false, [];
      }
      FanOutStep(d, time, targets, i, channels, fileExists);
      tasks := tasks + [TargetSend(channels, targets[i], caption.value, fileExists)];
      i := i + 1;
    }
    assert targets[..i] == targets;
    return true, tasks;
  }

  /** The job: look up the targets, build every caption, then run the sends
      and count the results that are not exceptions. */
  method ProcessCopySignal(num: NumberSyntax, d: map<string, Value>, resp: Option<Response>,
                           channels: map<int, Permissions>, fileExists: string -> bool)
    returns (sends: seq<Send>, successCount: nat)
    ensures sends == CopySignalSends(num, d, resp, channels, fileExists)
    ensures successCount == |sends|
  {
    if "trader_uid" !in d {
      return [], 0;
    }
    var targets := GetPushTargets(num, Str(d["trader_uid"]), resp);
    if targets == [] {
      return [], 0;
    }
    var time := FormatTimestampMs(num, Get(d, "time"));
    var built, tasks := BuildSends(d, time, targets, channels, fileExists);
    if !built {
      return [], 0;
    }
    sends := tasks;
    var results := GuardedResults(sends);
    successCount := CountSuccesses(results);
    GuardedAllSucceed(sends);
  }

  /** One send per push target, none with a file; a target's channel gets
      its caption exactly when the bot sees it and may post there, and the
      caption carries the detail link exactly when the target's jump is "1". */
  lemma {:induction false} CopySignalFanOut(num: NumberSyntax, d: map<string, Value>, resp: Option<Response>,
                         channels: map<int, Permissions>, fileExists: string -> bool, i: int)
    requires "trader_uid" in d
    requires CopySignalSends(num, d, resp, channels, fileExists) != []
    requires 0 <= i < |Targets(num, Str(d["trader_uid"]), resp)|
    ensures var sends := CopySignalSends(num, d, resp, channels, fileExists);
      var t := Targets(num, Str(d["trader_uid"]), resp)[i];
      var link := AboutLink(Str(Get(d, "trader_name")), Str(Get(d, "trader_detail_url")));
      && |sends| == |Targets(num, Str(d["trader_uid"]), resp)|
      && !sends[i].PostFile?
      && (Posted(sends[i]) <==> t.channel in channels && channels[t.channel].sendMessages)
      && (Posted(sends[i]) ==> (EndsWith(sends[i].text, link) <==> t.jump == "1"))
  {
    var targets := Targets(num, Str(d["trader_uid"]), resp);
    var time := FormatTimestampMs(num, Get(d, "time"));
    assert CaptionsBuild(d, time, targets);
    CaptionLinkIffJump(d, time, targets[i].jump);
  }

  /** `handle_send_copy_signal`: the body is logged by its keys, so a body
      that is not a dict is refused as invalid JSON. */
  function HandleCopySignal(num: NumberSyntax, header: Option<string>, body: Option<Value>, schedulerUp: bool): (r: Run)
    ensures r.scheduled <==> (AcceptsJson(header) && body.Some? && body.value.VDict?
      && CopySignalWellFormed(num, body.value.fields) && schedulerUp)
    ensures r.reply.Rejected? ==> body.Some? && ValidateCopySignal(num, body.value) == Fail(r.reply.rejection)
  {
    var validate := v => ValidateCopySignal(num, v);
    if body.Some? then
      CopySignalAccepted(num, body.value);
      Handle(header, body, true, validate, schedulerUp)
    else Handle(header, body, true, validate, schedulerUp)
  }
}
