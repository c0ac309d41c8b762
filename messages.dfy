/**
 * The message handler: the owner's dispatcher, driven by the flags the owner's
 * conversation keeps between updates, and the relay of other users' text to
 * the owner.
 *
 * Every decision is first stated as a pure function on a `UserData` snapshot
 * (`Dispatch`, `RelayUserMessage`); the class `OwnerSession` holds the same
 * five entries as fields and its methods are proved to follow those functions.
 */
module Messages {
  import opened Wrappers
  import opened Strings
  import opened Keyboards
  import opened Transport
  import opened Media
  import opened Database
  import Sets

  const AdminHeader := "`📝 Admin Reply:`"
  const BlockedNotice := "❌ You have been blocked by the bot owner and cannot send messages."
  const ReplyCancelledNotice := "🚫 Reply cancelled."
  const SendCancelledNotice := "🚫 Send cancelled."
  const OperationCancelledNotice := "🚫 Operation cancelled."
  const BroadcastCancelledNotice := "🚫 Broadcast cancelled."
  const InvalidFormatNotice := "❌ Invalid format! Please enter a numeric ID or username with @.\n\nExample: 123456789 or @username"

  /** The message the owner wrote, held until they confirm or cancel it. */
  datatype Pending = Pending(targetUserId: int, message: Message, messageType: string)

  /**
   * The owner's per-conversation entries: `pending_message`, `replying_to`,
   * `sending_to_user` (present or not), `waiting_for_user_id` and
   * `broadcast_mode` (present or not).
   */
  datatype UserData = UserData(
    pending: Option<Pending>,
    replyingTo: Option<int>,
    sendingToUser: Option<int>,
    waitingForUserId: bool,
    broadcastMode: bool)

  const NoData := UserData(None, None, None, false, false)

  /**
   * What the surroundings decide for one update: the owner's id, the clock,
   * whether the single delivery attempt of a confirmed message succeeds, which
   * broadcast recipients can be reached, and whether each database access or
   * relay call fails (`usernameFault` for the lookup by username, `infoFault`
   * for the lookup of a user's names).
   */
  datatype Env = Env(
    ownerId: int,
    now: int,
    deliveryOk: bool,
    reachable: set<int>,
    usernameFault: bool,
    infoFault: bool,
    blockCheckFault: bool,
    saveFault: bool,
    relayOk: bool)

  /** What the bot shows or sends in answer to one update. */
  datatype Outcome =
    | NoAction
    | Notice(text: string)
    | ConfirmationRequested(targetInfo: string, messageType: string)
    | Sent(messageType: string, sends: seq<Outbound>)
    | SendFailed(messageType: string)
    | TargetPrompted
    | BroadcastPrompted
    | BlockList(blocked: seq<BlockedListing>)
    | UserList(listed: seq<UserListing>)
    | StatsShown(stats: Stats)
    | TargetSelected(targetInfo: string)
    | BroadcastDone(sends: seq<Outbound>, successCount: nat, failCount: nat)
    | Relayed(relayed: seq<Outbound>, acknowledged: bool)

  datatype Step = Step(data: UserData, outcome: Outcome)

  // ---------------------------------------------------------------- sending a confirmed message

  /** A reply's caption carries the admin header; a plain send passes the caption through. */
  function ReplyCaption(caption: string, isReply: bool): string {
    if isReply then WithHeader(AdminHeader, caption) else caption
  }

  /**
   * The calls `send_pending_message` makes for a held message: text first,
   * otherwise the first attachment kind present. Replies carry the admin
   * header in Markdown, as a prefix of the text or caption, or as a separate
   * text ahead of a voice note or a sticker.
   */
  function PendingSends(m: Message, target: int, isReply: bool): seq<Outbound> {
    if m.text != "" then
      [SendText(target, if isReply then WithHeader(AdminHeader, m.text) else m.text, isReply, [])]
    else
      match SelectMedia(m)
      case None => []
      case Some(a) =>
        if a.kind == Voice || a.kind == Sticker then
          var caption := if a.kind == Voice && m.caption != "" then Some(m.caption) else None;
          (if isReply then [SendText(target, AdminHeader, true, [])] else []) +
          [SendMedia(target, a.kind, a.fileId, caption, false, [])]
        else
          [SendMedia(target, a.kind, a.fileId, Some(ReplyCaption(m.caption, isReply)), isReply, [])]
  }

  /**
   * Every call goes to the target; the header appears exactly on replies and
   * the owner's words survive intact. The attachment branches are pinned as
   * well, although the dispatcher never holds a message without text
   * (`ConfirmedSendIsOneText`).
   */
  lemma PendingSendsDeliverContent(m: Message, target: int, isReply: bool)
    ensures var sends := PendingSends(m, target, isReply);
      && |sends| <= 2
      && (forall i :: 0 <= i < |sends| ==> sends[i].chat == target && sends[i].buttons == [])
      && (m.text != "" ==> |sends| == 1 && sends[0].SendText? && sends[0].markdown == isReply)
      && (m.text != "" && isReply ==> BodyAfter(AdminHeader, sends[0].text) == m.text)
      && (m.text != "" && !isReply ==> sends[0].text == m.text)
      && (m.text == "" && SelectMedia(m).None? ==> sends == [])
      && (m.text == "" && SelectMedia(m).Some? ==>
            && sends[|sends| - 1].SendMedia?
            && sends[|sends| - 1].kind == SelectMedia(m).value.kind
            && sends[|sends| - 1].fileId == SelectMedia(m).value.fileId)
      && (m.text == "" && SelectMedia(m).Some? && SelectMedia(m).value.kind in {Photo, Video, Document, Audio} ==>
            && |sends| == 1
            && sends[0].markdown == isReply
            && sends[0].caption == Some(ReplyCaption(m.caption, isReply)))
      && (m.text == "" && SelectMedia(m).Some? && SelectMedia(m).value.kind in {Voice, Sticker} ==>
            && |sends| == (if isReply then 2 else 1)
            && (isReply ==> sends[0] == SendText(target, AdminHeader, true, []))
            && !sends[|sends| - 1].markdown
            && (sends[|sends| - 1].caption.Some? <==> SelectMedia(m).value.kind == Voice && m.caption != "")
            && (sends[|sends| - 1].caption.Some? ==> sends[|sends| - 1].caption.value == m.caption))
  {
    if m.text != "" && isReply {
      BodyAfterWithHeader(AdminHeader, m.text);
    }
  }

  /** Dropping the three entries a finished or cancelled send leaves behind. */
  function CancelPending(d: UserData): (r: UserData)
    ensures r.pending.None? && r.replyingTo.None? && r.sendingToUser.None?
    ensures r.waitingForUserId == d.waitingForUserId && r.broadcastMode == d.broadcastMode
  {
    d.(pending := None, replyingTo := None, sendingToUser := None)
  }

  /**
   * `send_pending_message`: one delivery attempt of the held message, as a
   * reply exactly when `replying_to` is present. Success clears the send
   * entries; failure keeps everything, so the owner can confirm again.
   */
  function SendPendingStep(d: UserData, deliveryOk: bool): Step
    requires d.pending.Some?
  {
    var p := d.pending.value;
    if deliveryOk then
      Step(CancelPending(d), Sent(p.messageType, PendingSends(p.message, p.targetUserId, d.replyingTo.Some?)))
    else
      Step(d, SendFailed(p.messageType))
  }

  // ---------------------------------------------------------------- composing and choosing a target

  /** `ask_confirmation`: hold the message (replacing any held one) and show the target. */
  function ConfirmStep(d: UserData, m: Message, target: int, messageType: string, users: Users, fault: bool): Step {
    Step(d.(pending := Some(Pending(target, m, messageType))),
         ConfirmationRequested(TargetInfo(target, GetUserInfo(users, target, fault)), messageType))
  }

  /**
   * The target the owner typed: digits are an id, "@name" is looked up by
   * username (no match, or a database error, gives nothing), anything else is
   * not a target.
   */
  function ParseTarget(text: string, users: Users, fault: bool): (r: Option<int>)
    ensures IsDigits(text) ==> r == Some(DigitsValue(text))
    ensures !IsDigits(text) && r.Some? ==>
              StartsWith(text, "@") && r.value in users && users[r.value].username == Some(text[1..])
    ensures (&& !IsDigits(text) && StartsWith(text, "@") && !fault
             && exists k :: k in users && users[k].username == Some(text[1..])) ==> r.Some?
    ensures !IsDigits(text) && !StartsWith(text, "@") ==> r.None?
  {
    if IsDigits(text) then Some(DigitsValue(text))
    else if StartsWith(text, "@") && !fault then GetUserByUsername(users, text[1..])
    else None
  }

  /** An id shown in decimal reads back as itself. */
  lemma ParseTargetReadsRenderedId(n: nat, users: Users, fault: bool)
    ensures ParseTarget(NatToString(n), users, fault) == Some(n)
  {
    NatToStringRoundTrip(n);
  }

  /**
   * The owner answers the target prompt: a usable target (any id but 0, whether
   * or not it is a known user) switches to composing for it; anything else
   * keeps waiting.
   */
  function TargetStep(d: UserData, text: string, users: Users, usernameFault: bool, infoFault: bool): Step {
    if text == CancelLabel then
      Step(d.(waitingForUserId := false), Notice(OperationCancelledNotice))
    else
      var target := ParseTarget(text, users, usernameFault);
      if target.Some? && target.value != 0 then
        Step(d.(waitingForUserId := false, sendingToUser := target),
             TargetSelected(TargetInfo(target.value, GetUserInfo(users, target.value, infoFault))))
      else
        Step(d, Notice(InvalidFormatNotice))
  }

  /** One of the five menu buttons. */
  function MenuStep(d: UserData, text: string, users: Users, messages: seq<MessageRow>, ownerId: int): Step
    requires text in OwnerMenu
  {
    if text == SendToUserLabel then Step(d.(waitingForUserId := true), TargetPrompted)
    else if text == BroadcastLabel then Step(d.(broadcastMode := true), BroadcastPrompted)
    else if text == BlockListLabel then Step(d, BlockList(GetBlockedUsers(users, ownerId)))
    else if text == UserListLabel then Step(d, UserList(GetAllUsers(users, ownerId)))
    else Step(d, StatsShown(GetStats(users, messages, ownerId)))
  }

  // ---------------------------------------------------------------- broadcast

  /** The ids of the listed users whose blocked flag is 0, in listing order. */
  function UnblockedIds(rows: seq<UserListing>): (ids: seq<int>)
    ensures forall k :: k in ids ==> exists i :: 0 <= i < |rows| && rows[i].userId == k && rows[i].isBlocked == 0
    ensures forall i :: 0 <= i < |rows| && rows[i].isBlocked == 0 ==> rows[i].userId in ids
  {
    if rows == [] then []
    else
      var rest := UnblockedIds(rows[1..]);
      assert forall i :: 1 <= i < |rows| ==> rows[i] == rows[1..][i - 1];
      if rows[0].isBlocked == 0 then [rows[0].userId] + rest else rest
  }

  predicate NoDuplicates(ids: seq<int>) {
    forall i, j :: 0 <= i < j < |ids| ==> ids[i] != ids[j]
  }

  /** Filtering a listing with distinct ids gives distinct ids. */
  lemma {:induction false} UnblockedIdsDistinct(rows: seq<UserListing>)
    requires forall i, j :: 0 <= i < j < |rows| ==> rows[i].userId != rows[j].userId
    ensures NoDuplicates(UnblockedIds(rows))
  {
    if rows != [] {
      var tail := rows[1..];
      assert forall i :: 0 <= i < |tail| ==> tail[i] == rows[i + 1];
      UnblockedIdsDistinct(tail);
      var rest := UnblockedIds(tail);
      forall k | k in rest ensures k != rows[0].userId {
        var i :| 0 <= i < |tail| && tail[i].userId == k && tail[i].isBlocked == 0;
        assert rows[i + 1].userId == k;
      }
      if rows[0].isBlocked == 0 {
        var ids := [rows[0].userId] + rest;
        assert UnblockedIds(rows) == ids;
        forall i, j | 0 <= i < j < |ids| ensures ids[i] != ids[j] {
          assert ids[j] == rest[j - 1] && ids[j] in rest;
          if i > 0 {
            assert ids[i] == rest[i - 1];
          }
        }
      }
    }
  }

  /** The broadcast audience: every user but the owner whose blocked flag is 0. */
  function Recipients(users: Users, ownerId: int): seq<int> {
    UnblockedIds(GetAllUsers(users, ownerId))
  }

  /** Each unblocked user other than the owner is a recipient exactly once, and nobody else is. */
  lemma RecipientsAreUnblockedUsers(users: Users, ownerId: int)
    ensures forall k :: k in Recipients(users, ownerId) <==> k in users && k != ownerId && users[k].isBlocked == 0
    ensures NoDuplicates(Recipients(users, ownerId))
  {
    var rows := GetAllUsers(users, ownerId);
    forall i, j | 0 <= i < j < |rows| ensures rows[i].userId != rows[j].userId {
      assert Precedes(rows[i], rows[j]);
    }
    UnblockedIdsDistinct(rows);
    assert Recipients(users, ownerId) == UnblockedIds(rows);
    forall k | k in users && k != ownerId && users[k].isBlocked == 0 ensures k in Recipients(users, ownerId) {
      var i :| 0 <= i < |rows| && rows[i].userId == k;
      assert rows[i] == ListingOf(k, users[k]);
    }
    forall k | k in Recipients(users, ownerId) ensures k in users && k != ownerId && users[k].isBlocked == 0 {
      var i :| 0 <= i < |rows| && rows[i].userId == k && rows[i].isBlocked == 0;
      assert rows[i] == ListingOf(k, users[k]);
    }
  }

  /**
   * The statistics agree with the listings: the blocked count is the length
   * of the block list, the active count the size of the broadcast audience,
   * and the user count the length of the user list.
   */
  lemma StatsMatchListings(users: Users, messages: seq<MessageRow>, ownerId: int)
    ensures GetStats(users, messages, ownerId).blockedUsers == |GetBlockedUsers(users, ownerId)|
    ensures GetStats(users, messages, ownerId).activeUsers == |Recipients(users, ownerId)|
    ensures GetStats(users, messages, ownerId).totalUsers == |GetAllUsers(users, ownerId)|
  {
    BlockedCountIsListed(users, messages, ownerId);
    UserCountIsListed(users, messages, ownerId);
    RecipientsAreUnblockedUsers(users, ownerId);
    var recipients := Recipients(users, ownerId);
    Sets.DistinctCount(recipients);
    assert (set k | k in recipients) == IdsWithFlag(users, ownerId, 0);
  }

  /** The recipients a send reaches, in order. */
  function Delivered(recipients: seq<int>, reachable: set<int>): (r: seq<int>)
    ensures |r| <= |recipients|
    ensures forall k :: k in r <==> k in recipients && k in reachable
  {
    if recipients == [] then []
    else
      var last := recipients[|recipients| - 1];
      assert recipients == recipients[..|recipients| - 1] + [last];
      Delivered(recipients[..|recipients| - 1], reachable) + (if last in reachable then [last] else [])
  }

  /** Delivery keeps the audience's order, so an audience without repeats is reached without repeats. */
  lemma {:induction false} DeliveredKeepsDistinct(recipients: seq<int>, reachable: set<int>)
    requires NoDuplicates(recipients)
    ensures NoDuplicates(Delivered(recipients, reachable))
    decreases |recipients|
  {
    if recipients != [] {
      var init := recipients[..|recipients| - 1];
      var last := recipients[|recipients| - 1];
      assert NoDuplicates(init) by {
        forall i, j | 0 <= i < j < |init| ensures init[i] != init[j] {
          assert init[i] == recipients[i] && init[j] == recipients[j];
        }
      }
      DeliveredKeepsDistinct(init, reachable);
      assert last !in init by {
        forall i | 0 <= i < |init| ensures init[i] != last {
          assert init[i] == recipients[i];
        }
      }
      var before := Delivered(init, reachable);
      assert last !in before;
      assert recipients == init + [last];
      assert Delivered(recipients, reachable) == before + (if last in reachable then [last] else []);
    }
  }

  /** One plain text per id. */
  function TextsTo(ids: seq<int>, text: string): (sends: seq<Outbound>) {
    seq(|ids|, i requires 0 <= i < |ids| => SendText(ids[i], text, false, []))
  }

  /** `broadcast_mode` and a text: send it to every recipient at once and report the tally. */
  function BroadcastStep(d: UserData, text: string, users: Users, reachable: set<int>, ownerId: int): Step {
    var recipients := Recipients(users, ownerId);
    var delivered := Delivered(recipients, reachable);
    Step(d.(broadcastMode := false),
         BroadcastDone(TextsTo(delivered, text), |delivered|, |recipients| - |delivered|))
  }

  /** The broadcast loop: one attempt per recipient, counting successes and failures. */
  method BroadcastText(recipients: seq<int>, text: string, reachable: set<int>)
      returns (sends: seq<Outbound>, successCount: nat, failCount: nat)
    ensures sends == TextsTo(Delivered(recipients, reachable), text)
    ensures successCount == |Delivered(recipients, reachable)|
    ensures successCount + failCount == |recipients|
  {
    sends, successCount, failCount := [], 0, 0;
    for i := 0 to |recipients|
      invariant sends == TextsTo(Delivered(recipients[..i], reachable), text)
      invariant successCount == |Delivered(recipients[..i], reachable)|
      invariant successCount + failCount == i
    {
      assert recipients[..i + 1][..i] == recipients[..i];
      if recipients[i] in reachable {
        sends := sends + [SendText(recipients[i], text, false, [])];
        successCount := successCount + 1;
      } else {
        failCount := failCount + 1;
      }
    }
    assert recipients[..|recipients|] == recipients;
  }

  // ---------------------------------------------------------------- the owner's dispatcher

  /**
   * `handle_owner_message` for the owner, as a function of the entries before
   * the update: the first matching branch in the source's order decides. An
   * update without text does nothing; with a message held, the two
   * confirmation buttons come first.
   */
  function Dispatch(d: UserData, m: Message, users: Users, messages: seq<MessageRow>, env: Env): Step {
    if m.text == "" then Step(d, NoAction)
    else if d.pending.Some? && m.text == ConfirmLabel then SendPendingStep(d, env.deliveryOk)
    else if d.pending.Some? && m.text == CancelSendingLabel then Step(CancelPending(d), Notice(SendCancelledNotice))
    else ComposeStep(d, m, users, messages, env)
  }

  /** Then a reply or a send being composed takes the text, then the menu buttons. */
  function ComposeStep(d: UserData, m: Message, users: Users, messages: seq<MessageRow>, env: Env): Step {
    var text := m.text;
    if d.replyingTo.Some? then
      if text == CancelLabel || text == CancelReplyLabel then
        Step(d.(replyingTo := None), Notice(ReplyCancelledNotice))
      else
        ConfirmStep(d, m, d.replyingTo.value, "reply", users, env.infoFault)
    else if d.sendingToUser.Some? then
      if text == CancelLabel then
        Step(d.(sendingToUser := None), Notice(SendCancelledNotice))
      else
        ConfirmStep(d, m, d.sendingToUser.value, "message", users, env.infoFault)
    else if text in OwnerMenu then MenuStep(d, text, users, messages, env.ownerId)
    else ModeStep(d, text, users, env)
  }

  /** Last, the target prompt and then broadcast mode take the text; otherwise it is ignored. */
  function ModeStep(d: UserData, text: string, users: Users, env: Env): Step {
    if d.waitingForUserId then TargetStep(d, text, users, env.usernameFault, env.infoFault)
    else if d.broadcastMode then
      if text == CancelLabel then
        Step(d.(broadcastMode := false), Notice(BroadcastCancelledNotice))
      else
        BroadcastStep(d, text, users, env.reachable, env.ownerId)
    else Step(d, NoAction)
  }

  /** An owner update without text (the owner's own media included) changes nothing and sends nothing. */
  lemma NoTextDoesNothing(d: UserData, m: Message, users: Users, messages: seq<MessageRow>, env: Env)
    requires m.text == ""
    ensures Dispatch(d, m, users, messages, env) == Step(d, NoAction)
  {
  }

  /**
   * The entries stay consistent: a held message always has text (only text
   * updates are ever held), and the owner is never both choosing a target and
   * composing for one.
   */
  ghost predicate WellFormed(d: UserData) {
    && (d.pending.Some? ==> d.pending.value.message.text != "")
    && !(d.waitingForUserId && d.sendingToUser.Some?)
  }

  lemma DispatchKeepsWellFormed(d: UserData, m: Message, users: Users, messages: seq<MessageRow>, env: Env)
    requires WellFormed(d)
    ensures WellFormed(Dispatch(d, m, users, messages, env).data)
  {
    if m.text != "" && !(d.pending.Some? && (m.text == ConfirmLabel || m.text == CancelSendingLabel)) {
      if d.replyingTo.None? && d.sendingToUser.None? {
        if m.text in OwnerMenu {
          assert Dispatch(d, m, users, messages, env) == MenuStep(d, m.text, users, messages, env.ownerId);
        } else {
          assert Dispatch(d, m, users, messages, env) == ModeStep(d, m.text, users, env);
        }
      }
    }
  }

  /** Under the invariant a confirmed message is always a single text: the media branches of the sender are never taken. */
  lemma ConfirmedSendIsOneText(d: UserData, deliveryOk: bool)
    requires WellFormed(d) && d.pending.Some?
    ensures var sends := PendingSends(d.pending.value.message, d.pending.value.targetUserId, d.replyingTo.Some?);
      |sends| == 1 && sends[0].SendText?
  {
  }

  /**
   * With a message held, any text other than the two confirmation buttons is
   * handled exactly as if nothing were held, and the held message survives
   * unless that handling holds a new one.
   */
  lemma OtherTextKeepsPending(d: UserData, m: Message, users: Users, messages: seq<MessageRow>, env: Env)
    requires d.pending.Some? && m.text != ConfirmLabel && m.text != CancelSendingLabel
    ensures var s := Dispatch(d, m, users, messages, env);
            var s0 := Dispatch(d.(pending := None), m, users, messages, env);
      && s.outcome == s0.outcome
      && s.data == s0.data.(pending := if s0.data.pending.Some? then s0.data.pending else d.pending)
  {
    var d0 := d.(pending := None);
    if m.text == "" {
    } else if d.replyingTo.Some? {
    } else if d.sendingToUser.Some? {
    } else if m.text in OwnerMenu {
      assert Dispatch(d, m, users, messages, env) == MenuStep(d, m.text, users, messages, env.ownerId);
    } else {
      assert Dispatch(d, m, users, messages, env) == ModeStep(d, m.text, users, env);
      assert Dispatch(d0, m, users, messages, env) == ModeStep(d0, m.text, users, env);
    }
  }

  /** Confirming sends once; on success the send entries are gone, on failure nothing changes. */
  lemma ConfirmSendsOnce(d: UserData, m: Message, users: Users, messages: seq<MessageRow>, env: Env)
    requires d.pending.Some? && m.text == ConfirmLabel
    ensures var s := Dispatch(d, m, users, messages, env);
      && (env.deliveryOk ==>
            && s.data == CancelPending(d)
            && s.outcome == Sent(d.pending.value.messageType,
                                 PendingSends(d.pending.value.message, d.pending.value.targetUserId, d.replyingTo.Some?)))
      && (!env.deliveryOk ==> s == Step(d, SendFailed(d.pending.value.messageType)))
  {
  }

  /**
   * Cancelling a reply drops only `replying_to`: a message already held stays
   * held, and a later confirmation sends it without the admin header.
   */
  lemma CancelReplyKeepsHeldMessage(d: UserData, m: Message, users: Users, messages: seq<MessageRow>, env: Env)
    requires d.replyingTo.Some? && (m.text == CancelLabel || m.text == CancelReplyLabel)
    ensures Dispatch(d, m, users, messages, env) == Step(d.(replyingTo := None), Notice(ReplyCancelledNotice))
  {
  }

  /** A reply held, then "Cancel", then "Yes, send it": the text goes out as a plain message. */
  lemma {:induction false} StaleReplyLosesHeader(u: int, t: string, users: Users, messages: seq<MessageRow>, env: Env)
    requires t != "" && t != ConfirmLabel && t != CancelSendingLabel && t != CancelLabel && t != CancelReplyLabel
    requires env.deliveryOk
    ensures var m := Message(t, "", [], None, None, None, None, None);
            var cancel := Message(CancelLabel, "", [], None, None, None, None, None);
            var confirm := Message(ConfirmLabel, "", [], None, None, None, None, None);
            var d1 := Dispatch(NoData.(replyingTo := Some(u)), m, users, messages, env).data;
            var d2 := Dispatch(d1, cancel, users, messages, env).data;
            var s3 := Dispatch(d2, confirm, users, messages, env);
      s3.outcome == Sent("reply", [SendText(u, t, false, [])]) && s3.data == NoData
  {
    var m := Message(t, "", [], None, None, None, None, None);
    var d1 := Dispatch(NoData.(replyingTo := Some(u)), m, users, messages, env).data;
    assert d1 == NoData.(replyingTo := Some(u), pending := Some(Pending(u, m, "reply")));
  }

  /**
   * While a reply or a send is being composed, any text but its cancel button
   * (and the two confirmation buttons while a message is held) becomes the
   * held message for that user, replacing an earlier one; nothing else changes.
   */
  lemma ComposingHoldsMessage(d: UserData, m: Message, users: Users, messages: seq<MessageRow>, env: Env)
    requires m.text != "" && !(d.pending.Some? && (m.text == ConfirmLabel || m.text == CancelSendingLabel))
    requires d.replyingTo.Some? || d.sendingToUser.Some?
    requires d.replyingTo.Some? ==> m.text != CancelLabel && m.text != CancelReplyLabel
    requires d.replyingTo.None? ==> m.text != CancelLabel
    ensures var s := Dispatch(d, m, users, messages, env);
      && s.outcome.ConfirmationRequested?
      && (d.replyingTo.Some? ==> s.data == d.(pending := Some(Pending(d.replyingTo.value, m, "reply"))))
      && (d.replyingTo.None? ==> s.data == d.(pending := Some(Pending(d.sendingToUser.value, m, "message"))))
  {
  }

  /** While composing for a chosen user only "❌ Cancel" cancels; "❌ Cancel reply" is held as the message itself. */
  lemma CancelReplyIsContentWhenSending(d: UserData, m: Message, users: Users, messages: seq<MessageRow>, env: Env)
    requires d.replyingTo.None? && d.sendingToUser.Some? && m.text == CancelReplyLabel
    ensures var s := Dispatch(d, m, users, messages, env);
      s.data == d.(pending := Some(Pending(d.sendingToUser.value, m, "message"))) &&
      s.outcome.ConfirmationRequested? && s.outcome.messageType == "message"
  {
  }

  /** A menu button always acts as a menu button: it neither answers the target prompt nor is broadcast. */
  lemma MenuButtonsPreempt(d: UserData, m: Message, users: Users, messages: seq<MessageRow>, env: Env)
    requires d.replyingTo.None? && d.sendingToUser.None? && m.text in OwnerMenu
    ensures var s := Dispatch(d, m, users, messages, env);
      && s.data == d.(waitingForUserId := d.waitingForUserId || m.text == SendToUserLabel,
                      broadcastMode := d.broadcastMode || m.text == BroadcastLabel)
      && !s.outcome.TargetSelected? && !s.outcome.BroadcastDone? && !s.outcome.Notice?
  {
    LabelsDistinct();
  }

  /** The conditions under which an update answers the target prompt. */
  predicate AnswersTargetPrompt(d: UserData, text: string) {
    && text != "" && text != CancelLabel && text !in OwnerMenu
    && d.pending.None? && d.replyingTo.None? && d.sendingToUser.None? && d.waitingForUserId
  }

  /**
   * Answering the target prompt switches to composing exactly when the text
   * names an id other than 0; the id need not belong to a known user.
   */
  lemma TargetAccepted(d: UserData, m: Message, users: Users, messages: seq<MessageRow>, env: Env)
    requires AnswersTargetPrompt(d, m.text)
    ensures var s := Dispatch(d, m, users, messages, env);
            var t := ParseTarget(m.text, users, env.usernameFault);
      && (s.data.sendingToUser.Some? <==> t.Some? && t.value != 0)
      && (t.Some? && t.value != 0 ==> s.data == d.(waitingForUserId := false, sendingToUser := t))
      && (!(t.Some? && t.value != 0) ==> s == Step(d, Notice(InvalidFormatNotice)))
  {
  }

  /** "0" (or "00"...) is refused as a target although it is all digits. */
  lemma ZeroIsNotATarget(d: UserData, m: Message, users: Users, messages: seq<MessageRow>, env: Env)
    requires AnswersTargetPrompt(d, m.text) && IsDigits(m.text) && DigitsValue(m.text) == 0
    ensures Dispatch(d, m, users, messages, env) == Step(d, Notice(InvalidFormatNotice))
  {
  }

  /** An id is accepted without a lookup: no "user not found" answer is ever given to a numeric id. */
  lemma UnknownIdAccepted(d: UserData, n: nat, users: Users, messages: seq<MessageRow>, env: Env)
    requires n != 0 && n !in users
    requires AnswersTargetPrompt(d, NatToString(n))
    ensures var m := Message(NatToString(n), "", [], None, None, None, None, None);
      Dispatch(d, m, users, messages, env).data.sendingToUser == Some(n)
  {
    ParseTargetReadsRenderedId(n, users, env.usernameFault);
  }

  /**
   * "@name" at the target prompt: a known username selects that user (the
   * smallest id among equal usernames); an unknown one is refused as a bad
   * format and changes nothing.
   */
  lemma TargetByUsername(d: UserData, name: string, users: Users, messages: seq<MessageRow>, env: Env)
    requires AnswersTargetPrompt(d, "@" + name) && !env.usernameFault
    ensures var s := Dispatch(d, TextUpdate("@" + name), users, messages, env);
      && ((exists k :: k in users && users[k].username == Some(name)) && GetUserByUsername(users, name) != Some(0) ==>
            && s.data == d.(waitingForUserId := false, sendingToUser := GetUserByUsername(users, name))
            && users[s.data.sendingToUser.value].username == Some(name))
      && ((forall k :: k in users ==> users[k].username != Some(name)) ==> s == Step(d, Notice(InvalidFormatNotice)))
  {
    var text := "@" + name;
    assert text[1..] == name;
    assert StartsWith(text, "@");
    assert !IsDigits(text) by {
      assert !IsDigit(text[0]);
    }
    TargetAccepted(d, TextUpdate(text), users, messages, env);
  }

  /**
   * In broadcast mode a text (other than the cancel button and the menu) is
   * sent at once, with no confirmation step: every reachable unblocked user
   * other than the owner gets it exactly once, nobody else gets it, and the
   * counts add up to the audience.
   */
  lemma BroadcastReachesAudience(d: UserData, m: Message, users: Users, messages: seq<MessageRow>, env: Env)
    requires m.text != "" && m.text != CancelLabel && m.text !in OwnerMenu
    requires d.pending.None? && d.replyingTo.None? && d.sendingToUser.None? && !d.waitingForUserId && d.broadcastMode
    ensures var s := Dispatch(d, m, users, messages, env);
      && s.outcome.BroadcastDone?
      && s.data == d.(broadcastMode := false)
      && s.outcome.successCount + s.outcome.failCount == |Recipients(users, env.ownerId)|
      && (forall i :: 0 <= i < |s.outcome.sends| ==>
            var c := s.outcome.sends[i].chat;
            s.outcome.sends[i] == SendText(c, m.text, false, []) &&
            c in users && c != env.ownerId && users[c].isBlocked == 0 && c in env.reachable)
      && (forall k :: k in users && k != env.ownerId && users[k].isBlocked == 0 && k in env.reachable ==>
            exists i :: 0 <= i < |s.outcome.sends| && s.outcome.sends[i].chat == k)
      && (forall i, j :: 0 <= i < j < |s.outcome.sends| ==> s.outcome.sends[i].chat != s.outcome.sends[j].chat)
  {
    RecipientsAreUnblockedUsers(users, env.ownerId);
    DeliveredKeepsDistinct(Recipients(users, env.ownerId), env.reachable);
    var delivered := Delivered(Recipients(users, env.ownerId), env.reachable);
    var sends := TextsTo(delivered, m.text);
    forall i, j | 0 <= i < j < |sends| ensures sends[i].chat != sends[j].chat {
      assert sends[i].chat == delivered[i] && sends[j].chat == delivered[j];
    }
    forall i | 0 <= i < |sends|
      ensures sends[i].chat in users && sends[i].chat != env.ownerId && users[sends[i].chat].isBlocked == 0
      ensures sends[i].chat in env.reachable
    {
      assert sends[i].chat == delivered[i] && delivered[i] in delivered;
    }
    forall k | k in users && k != env.ownerId && users[k].isBlocked == 0 && k in env.reachable
      ensures exists i :: 0 <= i < |sends| && sends[i].chat == k
    {
      var i :| 0 <= i < |delivered| && delivered[i] == k;
      assert sends[i].chat == k;
    }
  }

  /**
   * Broadcast mode survives a send to one user: the owner presses the
   * broadcast button, then "send to specific user", picks a user, writes and
   * confirms. Neither the menu button nor the finished send drops
   * `broadcast_mode`, so the owner's next ordinary text goes to everybody.
   */
  lemma {:induction false} BroadcastModeOutlivesSend(n: nat, t: string, t2: string, users: Users,
                                                     messages: seq<MessageRow>, env: Env)
    requires n != 0 && env.deliveryOk
    requires t != "" && t != CancelLabel
    requires t2 != "" && t2 != CancelLabel && t2 !in OwnerMenu
    ensures var d1 := Dispatch(NoData, TextUpdate(BroadcastLabel), users, messages, env).data;
            var d2 := Dispatch(d1, TextUpdate(SendToUserLabel), users, messages, env).data;
            var d3 := Dispatch(d2, TextUpdate(NatToString(n)), users, messages, env).data;
            var d4 := Dispatch(d3, TextUpdate(t), users, messages, env).data;
            var s5 := Dispatch(d4, TextUpdate(ConfirmLabel), users, messages, env);
            var s6 := Dispatch(s5.data, TextUpdate(t2), users, messages, env);
      && s5.outcome == Sent("message", [SendText(n, t, false, [])])
      && s5.data == NoData.(broadcastMode := true)
      && s6 == BroadcastStep(s5.data, t2, users, env.reachable, env.ownerId)
  {
    var d1 := NoData.(broadcastMode := true);
    assert Dispatch(NoData, TextUpdate(BroadcastLabel), users, messages, env).data == d1;
    var d2 := d1.(waitingForUserId := true);
    assert Dispatch(d1, TextUpdate(SendToUserLabel), users, messages, env).data == d2;
    var id := NatToString(n);
    assert id !in OwnerMenu && id != CancelLabel && id != "" by {
      assert IsDigit(id[0]);
    }
    ParseTargetReadsRenderedId(n, users, env.usernameFault);
    var d3 := d1.(sendingToUser := Some(n));
    assert Dispatch(d2, TextUpdate(id), users, messages, env).data == d3;
    var d4 := d3.(pending := Some(Pending(n, TextUpdate(t), "message")));
    assert Dispatch(d3, TextUpdate(t), users, messages, env).data == d4;
  }

  // ---------------------------------------------------------------- other users' messages

  /** What relaying one update from a user other than the owner does: rows logged and the outcome. */
  datatype Relay = Relay(saved: seq<MessageRow>, outcome: Outcome)

  /**
   * `handle_user_message`: a blocked sender only gets the blocked notice; an
   * unblocked sender's text is logged and relayed to the owner under the
   * sender line, with the Reply and Block buttons. A database error in the
   * blocked check reads as "not blocked"; one in logging only skips the log.
   */
  function RelayUserMessage(users: Users, sender: User, m: Message, env: Env): (r: Relay)
    ensures IsUserBlocked(users, sender.id, env.blockCheckFault) ==> r == Relay([], Notice(BlockedNotice))
    ensures !IsUserBlocked(users, sender.id, env.blockCheckFault) && m.text == "" ==> r == Relay([], NoAction)
    ensures !IsUserBlocked(users, sender.id, env.blockCheckFault) && m.text != "" ==>
      && r.saved == (if env.saveFault then [] else [MessageRow(sender.id, m.text, env.now)])
      && r.outcome.Relayed? && r.outcome.acknowledged == env.relayOk
      && |r.outcome.relayed| == (if env.relayOk then 1 else 0)
      && (forall s :: s in r.outcome.relayed ==>
            && s.SendText? && s.chat == env.ownerId && !s.markdown
            && StartsWith(s.text, SenderInfo(sender))
            && BodyAfter(SenderInfo(sender), s.text) == m.text
            && s.buttons == ReplyBlockButtons(sender.id))
  {
    if IsUserBlocked(users, sender.id, env.blockCheckFault) then Relay([], Notice(BlockedNotice))
    else if m.text == "" then Relay([], NoAction)
    else
      var saved := if env.saveFault then [] else [MessageRow(sender.id, m.text, env.now)];
      var text := WithHeader(SenderInfo(sender), m.text);
      BodyAfterWithHeader(SenderInfo(sender), m.text);
      var relayed := if env.relayOk then [SendText(env.ownerId, text, false, ReplyBlockButtons(sender.id))] else [];
      Relay(saved, Relayed(relayed, env.relayOk))
  }

  /** A blocked user's text is neither logged nor relayed, whatever else happens. */
  lemma BlockedSenderIsSilenced(users: Users, sender: User, m: Message, env: Env)
    requires sender.id in users && users[sender.id].isBlocked != 0 && !env.blockCheckFault
    ensures RelayUserMessage(users, sender, m, env).saved == []
    ensures !RelayUserMessage(users, sender, m, env).outcome.Relayed?
  {
  }

  // ---------------------------------------------------------------- the owner's conversation

  /** The owner's conversation entries, updated in place by the handlers. */
  class OwnerSession {
    var pending: Option<Pending>
    var replyingTo: Option<int>
    var sendingToUser: Option<int>
    var waitingForUserId: bool
    var broadcastMode: bool

    function Data(): UserData
      reads this
    {
      UserData(pending, replyingTo, sendingToUser, waitingForUserId, broadcastMode)
    }

    constructor ()
      ensures Data() == NoData
    {
      pending, replyingTo, sendingToUser := None, None, None;
      waitingForUserId, broadcastMode := false, false;
    }

    /** `ask_confirmation`. */
    method AskConfirmation(m: Message, target: int, messageType: string, users: Users, fault: bool)
        returns (outcome: Outcome)
      modifies this
      ensures Step(Data(), outcome) == ConfirmStep(old(Data()), m, target, messageType, users, fault)
    {
      var info := GetUserInfo(users, target, fault);
      pending := Some(Pending(target, m, messageType));
      outcome := ConfirmationRequested(TargetInfo(target, info), messageType);
    }

    /** `send_pending_message`. */
    method SendPendingMessage(deliveryOk: bool) returns (outcome: Outcome)
      requires pending.Some?
      modifies this
      ensures Step(Data(), outcome) == SendPendingStep(old(Data()), deliveryOk)
    {
      var p := pending.value;
      var isReply := replyingTo.Some?;
      if !deliveryOk {
        return SendFailed(p.messageType);
      }
      var sends := PendingSends(p.message, p.targetUserId, isReply);
      pending, replyingTo, sendingToUser := None, None, None;
      outcome := Sent(p.messageType, sends);
    }

    /** `cancel_pending_message`. */
    method CancelPendingMessage() returns (outcome: Outcome)
      modifies this
      ensures Step(Data(), outcome) == Step(CancelPending(old(Data())), Notice(SendCancelledNotice))
    {
      pending, replyingTo, sendingToUser := None, None, None;
      outcome := Notice(SendCancelledNotice);
    }

    /**
     * `handle_owner_message`: the owner's updates follow `Dispatch` and leave
     * the store alone; everybody else's go to `HandleUserMessage`.
     */
    method HandleOwnerMessage(db: DatabaseManager, sender: User, m: Message, env: Env) returns (outcome: Outcome)
      requires db.Valid()
      modifies this, db
      ensures db.Valid() && db.users == old(db.users)
      ensures sender.id == env.ownerId ==>
        && Step(Data(), outcome) == Dispatch(old(Data()), m, old(db.users), old(db.messages), env)
        && db.messages == old(db.messages)
      ensures sender.id != env.ownerId ==>
        && Data() == old(Data())
        && db.messages == old(db.messages) + RelayUserMessage(old(db.users), sender, m, env).saved
        && outcome == RelayUserMessage(old(db.users), sender, m, env).outcome
    {
      if sender.id != env.ownerId {
        outcome := HandleUserMessage(db, sender, m, env);
        return;
      }
      if m.text == "" {
        return NoAction;
      }
      if pending.Some? {
        if m.text == ConfirmLabel {
          outcome := SendPendingMessage(env.deliveryOk);
          return;
        } else if m.text == CancelSendingLabel {
          outcome := CancelPendingMessage();
          return;
        }
      }
      outcome := HandleComposeOrMenu(db.users, db.messages, m, env);
    }

    /** The reply and send entries, then the menu buttons, as `ComposeStep` says. */
    method HandleComposeOrMenu(users: Users, messages: seq<MessageRow>, m: Message, env: Env) returns (outcome: Outcome)
      modifies this
      ensures Step(Data(), outcome) == ComposeStep(old(Data()), m, users, messages, env)
    {
      var text := m.text;
      if replyingTo.Some? {
        if text == CancelLabel || text == CancelReplyLabel {
          replyingTo := None;
          return Notice(ReplyCancelledNotice);
        }
        outcome := AskConfirmation(m, replyingTo.value, "reply", users, env.infoFault);
        return;
      }
      if sendingToUser.Some? {
        if text == CancelLabel {
          sendingToUser := None;
          return Notice(SendCancelledNotice);
        }
        outcome := AskConfirmation(m, sendingToUser.value, "message", users, env.infoFault);
        return;
      }
      if text == SendToUserLabel {
        waitingForUserId := true;
        return TargetPrompted;
      } else if text == BroadcastLabel {
        broadcastMode := true;
        return BroadcastPrompted;
      } else if text == BlockListLabel {
        return BlockList(GetBlockedUsers(users, env.ownerId));
      } else if text == UserListLabel {
        return UserList(GetAllUsers(users, env.ownerId));
      } else if text == StatsLabel {
        return StatsShown(GetStats(users, messages, env.ownerId));
      }
      outcome := HandleModes(users, text, env);
    }

    /** The target prompt, then broadcast mode, as `ModeStep` says. */
    method HandleModes(users: Users, text: string, env: Env) returns (outcome: Outcome)
      modifies this
      ensures Step(Data(), outcome) == ModeStep(old(Data()), text, users, env)
    {
      if waitingForUserId {
        if text == CancelLabel {
          waitingForUserId := false;
          return Notice(OperationCancelledNotice);
        }
        var target := ParseTarget(text, users, env.usernameFault);
        if target.Some? && target.value != 0 {
          waitingForUserId := false;
          sendingToUser := target;
          return TargetSelected(TargetInfo(target.value, GetUserInfo(users, target.value, env.infoFault)));
        }
        return Notice(InvalidFormatNotice);
      }
      if broadcastMode {
        if text == CancelLabel {
          broadcastMode := false;
          return Notice(BroadcastCancelledNotice);
        }
        var recipients := Recipients(users, env.ownerId);
        var sends, successCount, failCount := BroadcastText(recipients, text, env.reachable);
        broadcastMode := false;
        return BroadcastDone(sends, successCount, failCount);
      }
      outcome := NoAction;
    }
  }

  /** `handle_user_message`: logs through the store and answers as `RelayUserMessage` says. */
  method HandleUserMessage(db: DatabaseManager, sender: User, m: Message, env: Env) returns (outcome: Outcome)
    requires db.Valid()
    modifies db
    ensures db.Valid() && db.users == old(db.users)
    ensures db.messages == old(db.messages) + RelayUserMessage(old(db.users), sender, m, env).saved
    ensures outcome == RelayUserMessage(old(db.users), sender, m, env).outcome
  {
    if IsUserBlocked(db.users, sender.id, env.blockCheckFault) {
      return Notice(BlockedNotice);
    }
    if m.text == "" {
      return NoAction;
    }
    var _ := db.SaveMessage(sender.id, m.text, env.now, env.saveFault);
    var relayed := [];
    if env.relayOk {
      relayed := [SendText(env.ownerId, WithHeader(SenderInfo(sender), m.text), false, ReplyBlockButtons(sender.id))];
    }
    outcome := Relayed(relayed, env.relayOk);
  }
}
