/**
 * What the bot receives from and hands to the chat platform. Incoming
 * messages and senders are plain values; every outgoing call is an
 * `Outbound` value, and whether a call succeeds is decided by the caller
 * (a boolean per call or per recipient).
 */
module Transport {
  import opened Wrappers

  /** The sender of an update. */
  datatype User = User(id: int, username: Option<string>, firstName: Option<string>, lastName: Option<string>)

  datatype MediaKind = Photo | Video | Document | Audio | Voice | Sticker

  /**
   * An incoming message. `text` and `caption` are "" when absent. A photo is
   * the list of its sizes' file ids, smallest first; the other kinds are the
   * file id of the attachment when there is one.
   */
  datatype Message = Message(
    text: string,
    caption: string,
    photo: seq<string>,
    video: Option<string>,
    document: Option<string>,
    audio: Option<string>,
    voice: Option<string>,
    sticker: Option<string>)

  /** An update carrying only text: no caption and no attachment. */
  function TextUpdate(text: string): Message {
    Message(text, "", [], None, None, None, None, None)
  }

  /**
   * One outgoing call. `markdown` is the Markdown parse mode; `buttons` is the
   * callback data of the inline buttons attached to the message, in order.
   */
  datatype Outbound =
    | SendText(chat: int, text: string, markdown: bool, buttons: seq<string>)
    | SendMedia(chat: int, kind: MediaKind, fileId: string, caption: Option<string>, markdown: bool, buttons: seq<string>)

  /** Python truthiness of an optional string: present and non-empty. */
  predicate Truthy(s: Option<string>) {
    s.Some? && s.value != ""
  }
}
