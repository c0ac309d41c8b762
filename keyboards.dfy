/**
 * Button labels and callback data of the bot's keyboards. Layout and markup
 * flags are presentation and are not modelled; what matters is the set of
 * strings the owner's dispatcher and the callback handler match on.
 */
module Keyboards {
  import opened Strings

  // The owner's main menu.
  const SendToUserLabel := "📩 Send to specific user"
  const BroadcastLabel := "📨 Send broadcast message"
  const BlockListLabel := "🚫 Block list"
  const UserListLabel := "👥 User list"
  const StatsLabel := "📊 System statistics"

  const OwnerMenu: seq<string> := [SendToUserLabel, BroadcastLabel, BlockListLabel, UserListLabel, StatsLabel]

  /** The one-button keyboard shown while a target id or a broadcast text is awaited. */
  const CancelLabel := "❌ Cancel"
  /** The one-button keyboard shown after the owner presses "Reply". */
  const CancelReplyLabel := "❌ Cancel reply"

  // The confirmation keyboard.
  const ConfirmLabel := "✅ Yes, send it"
  const CancelSendingLabel := "✖️ Cancel sending"

  // Inline buttons.
  const CheckMembershipData := "check_membership"
  const ReplyPrefix := "reply_"
  const BlockPrefix := "block_"
  const UnblockPrefix := "unblock_"

  const JoinUrlPrefix := "https://t.me/"

  /** The "Join channel" link: the channel name with its leading '@' (its first character) dropped. */
  function JoinUrl(channel: string): (url: string)
    ensures StartsWith(url, JoinUrlPrefix)
    ensures |channel| > 0 ==> url[|JoinUrlPrefix|..] == channel[1..]
    ensures channel == [] ==> url == JoinUrlPrefix
  {
    JoinUrlPrefix + (if channel == [] then [] else channel[1..])
  }

  /** Callback data of the "Reply" button under a relayed message. */
  function ReplyData(userId: int): (data: string)
    ensures StartsWith(data, ReplyPrefix) && data[|ReplyPrefix|..] == IntToString(userId)
  {
    ReplyPrefix + IntToString(userId)
  }

  /** Callback data of the "Block" button under a relayed message. */
  function BlockData(userId: int): (data: string)
    ensures StartsWith(data, BlockPrefix) && data[|BlockPrefix|..] == IntToString(userId)
  {
    BlockPrefix + IntToString(userId)
  }

  /** Callback data of the "Unblock" buttons the block list carries. */
  function UnblockData(userId: int): (data: string)
    ensures StartsWith(data, UnblockPrefix) && data[|UnblockPrefix|..] == IntToString(userId)
  {
    UnblockPrefix + IntToString(userId)
  }

  /** The buttons attached to every message relayed to the owner, in order. */
  function ReplyBlockButtons(userId: int): (buttons: seq<string>)
    ensures |buttons| == 2
    ensures buttons[0] == ReplyData(userId) && buttons[1] == BlockData(userId)
  {
    [ReplyData(userId), BlockData(userId)]
  }

  /** The labels that can only ever mean a command: none of them is a menu label and all differ. */
  lemma LabelsDistinct()
    ensures forall i, j :: 0 <= i < j < |OwnerMenu| ==> OwnerMenu[i] != OwnerMenu[j]
    ensures CancelLabel !in OwnerMenu && CancelReplyLabel !in OwnerMenu
    ensures ConfirmLabel !in OwnerMenu && CancelSendingLabel !in OwnerMenu
    ensures ConfirmLabel != CancelSendingLabel && CancelLabel != CancelReplyLabel
    ensures ConfirmLabel != CancelLabel && ConfirmLabel != CancelReplyLabel
    ensures CancelSendingLabel != CancelLabel && CancelSendingLabel != CancelReplyLabel
  {
  }
}
