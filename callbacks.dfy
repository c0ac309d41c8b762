/**
 * The inline-button handler: the membership re-check any user may press, and
 * the owner-only Block, Unblock and Reply buttons, whose callback data carries
 * the user id after an underscore.
 */
module Callbacks {
  import opened Wrappers
  import opened Strings
  import opened Keyboards
  import opened Transport
  import opened Media
  import opened Database
  import Messages

  const UnblockedNotice := "🎉 You have been unblocked by the owner! You can now send messages."

  /** What a button's callback data asks for. */
  datatype Command =
    | CheckMembership
    | BlockCmd(userId: int)
    | UnblockCmd(userId: int)
    | ReplyCmd(userId: int)
    | Malformed      // a known prefix whose id field `int(...)` refuses (the handler raises)
    | Unrecognized   // none of the known forms: nothing happens

  /** `int(data.split('_')[1])`; `None` where Python raises. */
  function CallbackId(data: string): Option<int> {
    var parts := Split(data, '_');
    if |parts| < 2 then None else ParseInt(parts[1])
  }

  function WithId(data: string, cmd: int -> Command): Command {
    match CallbackId(data)
    case Some(id) => cmd(id)
    case None => Malformed
  }

  /** The prefixes are tried in the source's order: block, unblock, reply. */
  function ParseCallback(data: string): (c: Command)
    ensures c == CheckMembership <==> data == CheckMembershipData
    ensures c.Unrecognized? <==>
              data != CheckMembershipData && !StartsWith(data, BlockPrefix) &&
              !StartsWith(data, UnblockPrefix) && !StartsWith(data, ReplyPrefix)
  {
    if data == CheckMembershipData then CheckMembership
    else if StartsWith(data, BlockPrefix) then WithId(data, id => BlockCmd(id))
    else if StartsWith(data, UnblockPrefix) then WithId(data, id => UnblockCmd(id))
    else if StartsWith(data, ReplyPrefix) then WithId(data, id => ReplyCmd(id))
    else Unrecognized
  }

  /** A rendered id holds no underscore, so it survives the split intact. */
  lemma IdFieldReadsBack(word: string, id: int)
    requires '_' !in word
    ensures CallbackId(word + "_" + IntToString(id)) == Some(id)
  {
    var n := IntToString(id);
    forall k | 0 <= k < |n| ensures n[k] != '_' {
    }
    assert word + "_" + n == word + ['_'] + n;
    SplitTwoFields(word, '_', n);
    IntToStringRoundTrip(id);
  }

  /** "reply_<id>" reads back as a reply to that user. */
  lemma ReplyDataRoundTrip(id: int)
    ensures ParseCallback(ReplyData(id)) == ReplyCmd(id)
  {
    IdFieldReadsBack("reply", id);
    var data := ReplyData(id);
    assert data == "reply" + "_" + IntToString(id);
    FirstCharDecidesPrefix(data, BlockPrefix);
    FirstCharDecidesPrefix(data, UnblockPrefix);
  }

  /** "block_<id>" reads back as blocking that user. */
  lemma BlockDataRoundTrip(id: int)
    ensures ParseCallback(BlockData(id)) == BlockCmd(id)
  {
    IdFieldReadsBack("block", id);
    assert BlockData(id) == "block" + "_" + IntToString(id);
  }

  /** "unblock_<id>" reads back as unblocking that user; it does not start with "block_". */
  lemma UnblockDataRoundTrip(id: int)
    ensures ParseCallback(UnblockData(id)) == UnblockCmd(id)
  {
    IdFieldReadsBack("unblock", id);
    var data := UnblockData(id);
    assert data == "unblock" + "_" + IntToString(id);
    FirstCharDecidesPrefix(data, BlockPrefix);
  }

  /** The buttons the bot builds are read back as the command and the user they were built for. */
  lemma ButtonDataRoundTrip(id: int)
    ensures ParseCallback(ReplyData(id)) == ReplyCmd(id)
    ensures ParseCallback(BlockData(id)) == BlockCmd(id)
    ensures ParseCallback(UnblockData(id)) == UnblockCmd(id)
  {
    ReplyDataRoundTrip(id);
    BlockDataRoundTrip(id);
    UnblockDataRoundTrip(id);
  }

  /** What the surroundings decide for one button press. */
  datatype CallbackEnv = CallbackEnv(
    ownerId: int,
    isMember: bool,     // the channel membership check, false on any error
    dbFault: bool,      // the block or unblock write fails
    lookupFault: bool,  // the user-info lookup fails
    notifyOk: bool)     // the notice to the blocked or unblocked user is delivered

  datatype CallbackOutcome =
    | Welcome
    | NotMember
    | AccessDenied
    | UserBlocked(targetInfo: string, notices: seq<Outbound>)
    | UserUnblocked(userId: int, notices: seq<Outbound>)
    | ReplyStarted(targetInfo: string)
    | Failed
    | Ignored

  datatype CallbackStep = CallbackStep(users: Users, data: Messages.UserData, outcome: CallbackOutcome)

  /** The notice to a user, when its delivery succeeds (a failure is swallowed). */
  function Notify(userId: int, text: string, ok: bool): seq<Outbound> {
    if ok then [SendText(userId, text, false, [])] else []
  }

  /**
   * `handle_callback` with the block, unblock and reply handlers: the
   * membership re-check for anyone; every other button for the owner only.
   * Block and unblock write the flag (a failed write is ignored and the
   * handler carries on); Reply records whom the owner is answering.
   */
  function CallbackEffect(users: Users, d: Messages.UserData, fromId: int, data: string, env: CallbackEnv): CallbackStep {
    var cmd := ParseCallback(data);
    if cmd == CheckMembership then CallbackStep(users, d, if env.isMember then Welcome else NotMember)
    else if fromId != env.ownerId then CallbackStep(users, d, AccessDenied)
    else
      match cmd
      case BlockCmd(id) =>
        var after := if env.dbFault then users else SetBlockFlag(users, id, 1);
        CallbackStep(after, d, UserBlocked(TargetInfo(id, GetUserInfo(after, id, env.lookupFault)),
                                           Notify(id, Messages.BlockedNotice, env.notifyOk)))
      case UnblockCmd(id) =>
        var after := if env.dbFault then users else SetBlockFlag(users, id, 0);
        CallbackStep(after, d, UserUnblocked(id, Notify(id, UnblockedNotice, env.notifyOk)))
      case ReplyCmd(id) =>
        CallbackStep(users, d.(replyingTo := Some(id)), ReplyStarted(TargetInfo(id, GetUserInfo(users, id, env.lookupFault))))
      case Malformed => CallbackStep(users, d, Failed)
      case Unrecognized => CallbackStep(users, d, Ignored)
      case CheckMembership => CallbackStep(users, d, Ignored)
  }

  /** The membership re-check is answered for anyone and changes nothing. */
  lemma MembershipCheckChangesNothing(users: Users, d: Messages.UserData, fromId: int, env: CallbackEnv)
    ensures CallbackEffect(users, d, fromId, CheckMembershipData, env) ==
            CallbackStep(users, d, if env.isMember then Welcome else NotMember)
  {
  }

  /** Reply records (or replaces) whom the owner is answering and touches nothing else. */
  lemma ReplyButtonSetsOnlyReplyingTo(users: Users, d: Messages.UserData, u: int, env: CallbackEnv)
    ensures var r := CallbackEffect(users, d, env.ownerId, ReplyData(u), env);
      r.users == users && r.data == d.(replyingTo := Some(u)) && r.outcome.ReplyStarted?
  {
    ReplyDataRoundTrip(u);
  }

  /** Nobody but the owner changes the table or the owner's entries through a button. */
  lemma OnlyOwnerActs(users: Users, d: Messages.UserData, fromId: int, data: string, env: CallbackEnv)
    requires fromId != env.ownerId
    ensures var r := CallbackEffect(users, d, fromId, data, env);
      r.users == users && r.data == d && (data != CheckMembershipData ==> r.outcome == AccessDenied)
  {
  }

  /** Data the handler cannot read changes nothing. */
  lemma MalformedChangesNothing(users: Users, d: Messages.UserData, fromId: int, data: string, env: CallbackEnv)
    requires ParseCallback(data).Malformed? || ParseCallback(data).Unrecognized?
    ensures var r := CallbackEffect(users, d, fromId, data, env); r.users == users && r.data == d
  {
  }

  /**
   * Pressing Block under a relayed message blocks its sender: from then on the
   * sender's messages are answered with the blocked notice and not relayed.
   */
  lemma BlockButtonSilencesSender(users: Users, d: Messages.UserData, sender: User, env: CallbackEnv,
                                  m: Message, menv: Messages.Env)
    requires sender.id in users && !env.dbFault && !menv.blockCheckFault
    ensures var r := CallbackEffect(users, d, env.ownerId, ReplyBlockButtons(sender.id)[1], env);
      && IsUserBlocked(r.users, sender.id, false)
      && Messages.RelayUserMessage(r.users, sender, m, menv) == Messages.Relay([], Messages.Notice(Messages.BlockedNotice))
  {
    ButtonDataRoundTrip(sender.id);
  }

  /**
   * Block on a sender with no row in the users table (one who never sent
   * `/start`, or whose registration failed) writes nothing, yet the owner is
   * told the user is blocked, and the sender's next text is still relayed.
   */
  lemma BlockMissesUnregisteredSender(users: Users, d: Messages.UserData, sender: User, env: CallbackEnv,
                                      m: Message, menv: Messages.Env)
    requires sender.id !in users && m.text != ""
    ensures var r := CallbackEffect(users, d, env.ownerId, ReplyBlockButtons(sender.id)[1], env);
      && r.outcome.UserBlocked?
      && r.users == users
      && !IsUserBlocked(r.users, sender.id, menv.blockCheckFault)
      && Messages.RelayUserMessage(r.users, sender, m, menv).outcome.Relayed?
  {
    ButtonDataRoundTrip(sender.id);
  }

  /** Unblocking right after blocking restores the table of a user who was not blocked. */
  lemma UnblockUndoesBlock(users: Users, d: Messages.UserData, u: int, env: CallbackEnv)
    requires !env.dbFault && (u in users ==> users[u].isBlocked == 0)
    ensures var r1 := CallbackEffect(users, d, env.ownerId, BlockData(u), env);
            var r2 := CallbackEffect(r1.users, r1.data, env.ownerId, UnblockData(u), env);
      r2.users == users && r2.data == d
  {
    ButtonDataRoundTrip(u);
    var r1 := CallbackEffect(users, d, env.ownerId, BlockData(u), env);
    var r2 := CallbackEffect(r1.users, r1.data, env.ownerId, UnblockData(u), env);
    assert r2.users == SetBlockFlag(SetBlockFlag(users, u, 1), u, 0);
    assert r2.users.Keys == users.Keys;
    forall k | k in users ensures r2.users[k] == users[k] {
    }
  }

  /**
   * Pressing Reply under a relayed message makes the owner's next text a reply
   * to its sender: the text is held for confirmation as a "reply" to that user.
   */
  lemma ReplyButtonThenTextHoldsReply(users: Users, d: Messages.UserData, sender: User, env: CallbackEnv,
                                      m: Message, messages: seq<MessageRow>, menv: Messages.Env)
    requires m.text != "" && m.text != CancelLabel && m.text != CancelReplyLabel
    requires m.text != ConfirmLabel && m.text != CancelSendingLabel
    ensures var r := CallbackEffect(users, d, env.ownerId, ReplyBlockButtons(sender.id)[0], env);
            var s := Messages.Dispatch(r.data, m, users, messages, menv);
      s.data.pending == Some(Messages.Pending(sender.id, m, "reply"))
  {
    ButtonDataRoundTrip(sender.id);
  }

  /** The Reply button keeps the owner's entries consistent. */
  lemma CallbackKeepsWellFormed(users: Users, d: Messages.UserData, fromId: int, data: string, env: CallbackEnv)
    requires Messages.WellFormed(d)
    ensures Messages.WellFormed(CallbackEffect(users, d, fromId, data, env).data)
  {
  }

  /** `handle_callback` on the store and the owner's conversation, following `CallbackEffect`. */
  method HandleCallback(db: DatabaseManager, session: Messages.OwnerSession, fromId: int, data: string, env: CallbackEnv)
      returns (outcome: CallbackOutcome)
    requires db.Valid()
    modifies db, session
    ensures db.Valid() && db.messages == old(db.messages)
    ensures var r := CallbackEffect(old(db.users), old(session.Data()), fromId, data, env);
      db.users == r.users && session.Data() == r.data && outcome == r.outcome
  {
    var cmd := ParseCallback(data);
    if cmd == CheckMembership {
      return if env.isMember then Welcome else NotMember;
    }
    if fromId != env.ownerId {
      return AccessDenied;
    }
    match cmd {
      case BlockCmd(id) =>
        var _ := db.BlockUser(id, env.dbFault);
        var info := GetUserInfo(db.users, id, env.lookupFault);
        outcome := UserBlocked(TargetInfo(id, info), Notify(id, Messages.BlockedNotice, env.notifyOk));
      case UnblockCmd(id) =>
        var _ := db.UnblockUser(id, env.dbFault);
        outcome := UserUnblocked(id, Notify(id, UnblockedNotice, env.notifyOk));
      case ReplyCmd(id) =>
        session.replyingTo := Some(id);
        outcome := ReplyStarted(TargetInfo(id, GetUserInfo(db.users, id, env.lookupFault)));
      case Malformed =>
        outcome := Failed;
      case Unrecognized =>
        outcome := Ignored;
      case CheckMembership =>
        outcome := Ignored;
    }
  }
}
