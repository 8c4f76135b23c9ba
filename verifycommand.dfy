// The `!verify <code>` command: where it may run, the already-verified
// check, the verification service's answer and how its message is rewritten,
// and what is recorded on success.
module VerifyCommand {
  import opened Text
  import opened Values
  import opened GroupStore

  /** The only channel the command answers in. */
  const VerificationChannel: int := 1318102706254123020

  const DefaultApiMessage: string := "Verification failed. Please try again."

  /** The service message with `@{admin}` replaced by the first
      administrator's mention (or "the admin team" when the guild has none)
      and the `<a>` and `</a>` tags removed, in that order. */
  function RewriteMessage(msg: string, admin: Option<string>): string {
    var mention := if admin.Some? then admin.value else "the admin team";
    ReplaceAll(ReplaceAll(ReplaceAll(msg, "@{admin}", mention), "<a>", ""), "</a>", "")
  }

  /** The command succeeds on a 200 answer whose rewritten message
      contains "verification successful". */
  predicate Succeeded(status: int, msg: string) {
    status == 200 && Contains(msg, "verification successful")
  }

  /** The verification service's HTTP status and decoded JSON body. */
  datatype ApiResponse = ApiResponse(status: int, body: Value)

  /** The replies the command posts. */
  datatype Reply = WrongChannel | AskForCode | AlreadyVerified | Relayed(message: string) | RoleMissing

  /** What each reply says after the author's mention. */
  function ReplyBody(r: Reply): string {
    match r
    case WrongChannel => "you can only verify yourself in the designated verification channel."
    case AskForCode => "Please provide verification code, for example: !verify 123456"
    case AlreadyVerified => "this UID has already been verified"
    case Relayed(msg) => msg
    case RoleMissing => "verification successful, but 'verified' role not found."
  }

  /** The posted text: the author's mention, a comma and a space, then the
      reply. */
  function ReplyText(mention: string, r: Reply): string {
    mention + ", " + ReplyBody(r)
  }

  /** Every reply starts by addressing the author, and a relayed service
      message is posted whole after it. */
  lemma {:induction false} RepliesAddressAuthor(mention: string, r: Reply)
    ensures var t := ReplyText(mention, r);
      |t| >= |mention| + 2 && t[..|mention|] == mention && t[|mention|..|mention| + 2] == ", "
    ensures r.Relayed? ==> ReplyText(mention, r)[|mention| + 2..] == r.message
  {
    var t := ReplyText(mention, r);
    assert t[..|mention|] == mention;
  }

  /** What one invocation does: the reply posted (None where an exception
      ended the command first), whether the service was asked, whether the
      user is remembered in the in-memory dict, and whether the user is
      written to the verified-users table. */
  datatype VerifyOutcome = VerifyOutcome(reply: Option<Reply>, calledApi: bool, remember: bool, addUser: bool)

  /** The table's answer for this author, group and code, as the command
      asks it: the author id is passed as the number it is, and the table
      compares it with the stored text id; the group id is matched as its
      decimal text. */
  function StatusFor(users: map<string, VerifiedUser>, author: int, channel: int, code: string, dbError: bool): Verdict {
    if dbError then NotVerified else Status(users, VInt(author), IntToString(channel), code)
  }

  /** The same question with the author id passed as the text the table
      stores. */
  function StatusForIntended(users: map<string, VerifiedUser>, author: int, channel: int, code: string, dbError: bool): Verdict {
    if dbError then NotVerified else Status(users, VStr(IntToString(author)), IntToString(channel), code)
  }

  /** The service's answer as the command reads it: the body's "data" (or
      the default text) rewritten, and whether the status is 200 and the
      rewritten message contains "verification successful". */
  datatype Answer = Unreadable | Answer(message: string, confirmed: bool)

  /** `Unreadable` where the body is not a dict or the message is not a
      string, which raises before anything is posted. */
  function ServiceAnswer(status: int, body: Value, admin: Option<string>): Answer {
    if !body.VDict? then Unreadable
    else
      var raw := GetOr(body.fields, "data", VStr(DefaultApiMessage));
      if raw.VStr? then
        var msg := RewriteMessage(raw.s, admin);
        Answer(msg, Succeeded(status, msg))
      else Unreadable
  }

  /** The outcome once the service has answered. `roleExists` is whether
      the guild has a "verified" role and `roleAdded` whether granting it
      went through. */
  function AnswerOutcome(answer: Answer, roleExists: bool, roleAdded: bool): VerifyOutcome {
    match answer
    case Unreadable => VerifyOutcome(None, true, false, false)
    case Answer(msg, confirmed) =>
      if !confirmed then VerifyOutcome(Some(Relayed(msg)), true, false, false)
      else if !roleExists then VerifyOutcome(Some(RoleMissing), true, true, false)
      else if !roleAdded then VerifyOutcome(None, true, true, false)
      else VerifyOutcome(Some(Relayed(msg)), true, true, true)
  }

  /** The whole command, given what the table answers (`known`) and what
      the service answers; a missing code is the empty string. */
  function VerifyPlan(channel: int, code: string, known: Verdict, answer: Answer, roleExists: bool, roleAdded: bool): VerifyOutcome
  {
    if channel != VerificationChannel then VerifyOutcome(Some(WrongChannel), false, false, false)
    else if code == "" then VerifyOutcome(Some(AskForCode), false, false, false)
    else if known == Warning then
      VerifyOutcome(Some(AlreadyVerified), false, false, false)
    else AnswerOutcome(answer, roleExists, roleAdded)
  }

  /** Outside the verification channel the command only refuses. */
  lemma {:induction false} WrongChannelRefused(channel: int, code: string, known: Verdict, answer: Answer, roleExists: bool, roleAdded: bool)
    requires channel != VerificationChannel
    ensures var o := VerifyPlan(channel, code, known, answer, roleExists, roleAdded);
      o.reply == Some(WrongChannel)
      && !o.calledApi && !o.remember && !o.addUser
  {
  }

  /** Without a code the command asks for one and does nothing else. */
  lemma {:induction false} MissingCodePrompts(known: Verdict, answer: Answer, roleExists: bool, roleAdded: bool)
    ensures var o := VerifyPlan(VerificationChannel, "", known, answer, roleExists, roleAdded);
      o.reply == Some(AskForCode)
      && !o.calledApi && !o.remember && !o.addUser
  {
  }

  /** The service is asked exactly when the command runs in its channel,
      with a code, and the table does not warn; what follows depends on
      the answer alone, and nothing is recorded without it. */
  lemma {:induction false} ApiCalledIff(channel: int, code: string, known: Verdict, answer: Answer, roleExists: bool, roleAdded: bool)
    ensures var o := VerifyPlan(channel, code, known, answer, roleExists, roleAdded);
      && (o.calledApi <==> channel == VerificationChannel && code != "" && known == NotVerified)
      && (channel == VerificationChannel && code != "" && known == Warning ==> o.reply == Some(AlreadyVerified))
      && (o.calledApi ==> o == AnswerOutcome(answer, roleExists, roleAdded))
      && (!o.calledApi ==> !o.remember && !o.addUser && o.reply.Some?)
  {
  }

  /** Once asked, the user is remembered exactly when the service
      confirmed the verification, and written to the table only when the
      "verified" role also exists and was granted. */
  lemma {:induction false} SuccessRecorded(answer: Answer, roleExists: bool, roleAdded: bool)
    ensures var o := AnswerOutcome(answer, roleExists, roleAdded);
      && o.calledApi
      && (o.remember <==> answer.Answer? && answer.confirmed)
      && (o.addUser <==> o.remember && roleExists && roleAdded)
      && (o.remember && !roleExists ==> o.reply == Some(RoleMissing))
      && (o.addUser ==> o.reply == Some(Relayed(answer.message)))
      && (answer.Answer? && !answer.confirmed ==> o.reply == Some(Relayed(answer.message)))
      && (answer.Unreadable? ==> o.reply.None?)
  {
  }

  /** The answer read is the service's "data" rewritten, or the default
      text when "data" is absent; it confirms exactly on status 200 with
      "verification successful" in the rewritten text; a body that is not a
      dict, or a "data" that is not a string, cannot be read. */
  lemma {:induction false} ServiceAnswerSource(status: int, body: Value, admin: Option<string>)
    ensures var a := ServiceAnswer(status, body, admin);
      && (!body.VDict? ==> a.Unreadable?)
      && (body.VDict? && "data" !in body.fields ==> a.Answer? && a.message == RewriteMessage(DefaultApiMessage, admin))
      && (body.VDict? && "data" in body.fields ==>
           (a.Answer? <==> body.fields["data"].VStr?)
           && (a.Answer? ==> a.message == RewriteMessage(body.fields["data"].s, admin)))
      && (a.Answer? ==> (a.confirmed <==> status == 200 && Contains(a.message, "verification successful")))
  {
  }

  /** A message with no placeholder and no tags is posted as the service
      sent it. */
  lemma {:induction false} PlainMessageUnchanged(msg: string, admin: Option<string>)
    requires !Contains(msg, "@{admin}") && !Contains(msg, "<a>") && !Contains(msg, "</a>")
    ensures RewriteMessage(msg, admin) == msg
  {
    var mention := if admin.Some? then admin.value else "the admin team";
    ReplaceAllAbsent(msg, "@{admin}", mention);
    ReplaceAllAbsent(msg, "<a>", "");
    ReplaceAllAbsent(msg, "</a>", "");
  }

  /** Without an administrator the placeholder names the admin team. */
  lemma {:induction false} NoAdminFallback()
    ensures RewriteMessage("@{admin}", None) == "the admin team"
  {
    var step := ReplaceAll("@{admin}", "@{admin}", "the admin team");
    assert step == "the admin team";
    LeadAbsent(step, "<a>");
    ReplaceAllAbsent(step, "<a>", "");
    LeadAbsent(step, "</a>");
    ReplaceAllAbsent(step, "</a>", "");
  }

  /** The table's duplicate check as the command calls it: the author id is
      passed as a number, so the only holder of a code is told the code is
      already verified when it presents its own code again. */
  lemma {:induction false} OwnerWarnedAsWritten(users: map<string, VerifiedUser>, author: int, code: string, now: int,
                                                answer: Answer, roleExists: bool, roleAdded: bool)
    requires forall u :: u in users ==> !(users[u].active && users[u].groupId == IntToString(VerificationChannel) && users[u].code == code)
    ensures var after := AddedUser(users, IntToString(author), IntToString(VerificationChannel), code, now);
      Status(after, VInt(author), IntToString(VerificationChannel), code) == Warning
    ensures var after := AddedUser(users, IntToString(author), IntToString(VerificationChannel), code, now);
      code != "" ==>
        var o := VerifyPlan(VerificationChannel, code, StatusFor(after, author, VerificationChannel, code, false),
                            answer, roleExists, roleAdded);
        o.reply == Some(AlreadyVerified) && !o.calledApi && !o.remember && !o.addUser
  {
    var after := AddedUser(users, IntToString(author), IntToString(VerificationChannel), code, now);
    assert forall u :: u in Holders(after, IntToString(VerificationChannel), code) <==> u == IntToString(author);
    NumericCallerWarned(after, author, IntToString(VerificationChannel), code);
  }

  /** With the author id passed as the text the table stores, the holder
      of a code may verify again: the service is asked, while anyone else
      presenting the code is warned. */
  lemma {:induction false} OwnerMayReverify(users: map<string, VerifiedUser>, author: int, other: int, code: string, now: int,
                         answer: Answer, roleExists: bool, roleAdded: bool)
    requires code != "" && other != author
    requires forall u :: u in users ==> !(users[u].active && users[u].groupId == IntToString(VerificationChannel) && users[u].code == code)
    ensures var after := AddedUser(users, IntToString(author), IntToString(VerificationChannel), code, now);
      && VerifyPlan(VerificationChannel, code, StatusForIntended(after, author, VerificationChannel, code, false),
                    answer, roleExists, roleAdded).calledApi
      && VerifyPlan(VerificationChannel, code, StatusForIntended(after, other, VerificationChannel, code, false),
                    answer, roleExists, roleAdded).reply == Some(AlreadyVerified)
  {
    IntToStringInjective(other, author);
    OthersWarnedAfterAdd(users, IntToString(author), IntToString(other), IntToString(VerificationChannel), code, now);
  }

  /** The command's state: the in-memory dict of verified users, keyed by
      author id, and the database. */
  class Verifier {
    var verifiedUsers: map<int, string>
    const store: Store

    constructor(store: Store)
      ensures this.store == store && verifiedUsers == map[]
    {
      this.store := store;
      verifiedUsers := map[];
    }

    /** `verify(ctx, uid)` as written, so the duplicate check receives the
        author id as a number (`StatusFor`); the posted text is `ReplyText`
        of the author's mention and `reply`. The table's own failures are
        inputs: `dbError` for the duplicate check, `addError` for the insert. */
    method Verify(channel: int, author: int, code: string, dbError: bool, api: ApiResponse,
                  admin: Option<string>, roleExists: bool, roleAdded: bool, addError: bool, now: int)
      returns (reply: Option<Reply>, calledApi: bool)
      modifies this, store
      ensures var o := VerifyPlan(channel, code, StatusFor(old(store.users), author, channel, code, dbError),
                                  ServiceAnswer(api.status, api.body, admin), roleExists, roleAdded);
        && reply == o.reply && calledApi == o.calledApi
        && verifiedUsers == (if o.remember then old(verifiedUsers)[author := code] else old(verifiedUsers))
        && store.users == (if o.addUser && !addError
                           then AddedUser(old(store.users), IntToString(author), IntToString(channel), code, now)
                           else old(store.users))
        && store.groups == old(store.groups)
    {
      calledApi := false;
      if channel != VerificationChannel {
        return Some(WrongChannel), false;
      }
      if code == "" {
        return Some(AskForCode), false;
      }
      var known := store.IsUserVerified(VInt(author), IntToString(channel), code, dbError);
      if known == Warning {
        return Some(AlreadyVerified), false;
      }
      calledApi := true;
      var answer := ServiceAnswer(api.status, api.body, admin);
      if answer.Unreadable? {
        return None, true;
      }
      if answer.confirmed {
        reply := Confirm(author, channel, code, answer, roleExists, roleAdded, addError, now);
      } else {
        reply := Some(Relayed(answer.message));
      }
    }

    /** The confirmed branch of `verify`: remember the user, then grant the
        role, reply and write the table. */
    method Confirm(author: int, channel: int, code: string, answer: Answer,
                   roleExists: bool, roleAdded: bool, addError: bool, now: int)
      returns (reply: Option<Reply>)
      requires answer.Answer? && answer.confirmed
      modifies this, store
      ensures var o := AnswerOutcome(answer, roleExists, roleAdded);
        && reply == o.reply
        && verifiedUsers == old(verifiedUsers)[author := code]
        && store.users == (if o.addUser && !addError
                           then AddedUser(old(store.users), IntToString(author), IntToString(channel), code, now)
                           else old(store.users))
        && store.groups == old(store.groups)
    {
      verifiedUsers := verifiedUsers[author := code];
      if !roleExists {
        return Some(RoleMissing);
      }
      if !roleAdded {
        return None;
      }
      reply := Some(Relayed(answer.message));
      var _ := store.AddVerifiedUser(IntToString(author), IntToString(channel), code, now, addError);
    }
  }
}
