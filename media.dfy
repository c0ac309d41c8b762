/**
 * Relaying media: the sender line that identifies an anonymous sender to the
 * owner, captions built from it, and the first-match choice of what kind of
 * attachment a message carries.
 */
module Media {
  import opened Wrappers
  import opened Strings
  import opened Transport
  import Keyboards
  import Database

  const SenderPrefix := "👤 Sender: ID "
  const TargetPrefix := "🆔 "
  const MediaSentAck := "✅ Your media was sent successfully!"
  const MediaErrorNotice := "❌ Error sending media. Please try again later."

  /**
   * The identity line used for senders and targets alike: the prefix and the
   * id, then " | @username", " | first name" and " last name" for each of
   * those that is present.
   */
  function IdentityLine(prefix: string, id: int, username: Option<string>, firstName: Option<string>,
                        lastName: Option<string>): (line: string)
    ensures StartsWith(line, prefix + IntToString(id))
    ensures |line| == |prefix + IntToString(id)| || line[|prefix + IntToString(id)|] == ' '
    ensures !Truthy(username) && !Truthy(firstName) && !Truthy(lastName) ==> line == prefix + IntToString(id)
    ensures Truthy(username) ==> StartsWith(line, prefix + IntToString(id) + " | @" + username.value)
    ensures !Truthy(username) && Truthy(firstName) ==> StartsWith(line, prefix + IntToString(id) + " | " + firstName.value)
    ensures Truthy(username) && Truthy(firstName) ==>
              StartsWith(line, prefix + IntToString(id) + " | @" + username.value + " | " + firstName.value)
    ensures Truthy(lastName) ==> EndsWith(line, " " + lastName.value)
    ensures !Truthy(lastName) && Truthy(firstName) ==> EndsWith(line, " | " + firstName.value)
    ensures !Truthy(lastName) && !Truthy(firstName) && Truthy(username) ==> EndsWith(line, " | @" + username.value)
    ensures |line| == |prefix + IntToString(id)| + (if Truthy(username) then 4 + |username.value| else 0)
                      + (if Truthy(firstName) then 3 + |firstName.value| else 0)
                      + (if Truthy(lastName) then 1 + |lastName.value| else 0)
  {
    var head := prefix + IntToString(id);
    var withUsername := head + (if Truthy(username) then " | @" + username.value else "");
    var withFirst := withUsername + (if Truthy(firstName) then " | " + firstName.value else "");
    var line := withFirst + (if Truthy(lastName) then " " + lastName.value else "");
    assert line[..|head|] == head by {
      assert withUsername[..|head|] == head;
      assert withFirst[..|head|] == head;
    }
    assert Truthy(username) ==> line[..|head + " | @" + username.value|] == withUsername;
    line
  }

  /** The id is recoverable from an identity line: it is the first space-separated field after the prefix. */
  lemma IdentityLineReadsBackId(prefix: string, id: int, username: Option<string>, firstName: Option<string>,
                                lastName: Option<string>)
    ensures var line := IdentityLine(prefix, id, username, firstName, lastName);
      |prefix| <= |line| && ParseInt(Split(line[|prefix|..], ' ')[0]) == Some(id)
  {
    var line := IdentityLine(prefix, id, username, firstName, lastName);
    var digits := IntToString(id);
    assert ' ' !in digits by {
      forall k | 0 <= k < |digits| ensures digits[k] != ' ' {
      }
    }
    FirstFieldAfter(line, prefix, digits, ' ');
    IntToStringRoundTrip(id);
  }

  /** The line that tells the owner who sent a relayed message. */
  function SenderInfo(user: User): (line: string)
    ensures StartsWith(line, SenderPrefix + IntToString(user.id))
  {
    IdentityLine(SenderPrefix, user.id, user.username, user.firstName, user.lastName)
  }

  /** The line that shows the owner which user a reply, a send or a block is aimed at. */
  function TargetInfo(id: int, info: Database.UserInfo): (line: string)
    ensures StartsWith(line, TargetPrefix + IntToString(id))
  {
    IdentityLine(TargetPrefix, id, info.username, info.firstName, info.lastName)
  }

  /** `header + "\n\n" + body` when there is a body, the header alone otherwise. */
  function WithHeader(header: string, body: string): (s: string)
    ensures StartsWith(s, header)
    ensures body == "" ==> s == header
    ensures body != "" ==> |s| == |header| + 2 + |body|
  {
    if body == "" then header else header + "\n\n" + body
  }

  /** What follows `header` and a blank line in `s`; "" when `s` has no body after the header. */
  function BodyAfter(header: string, s: string): string {
    if |s| >= |header| + 2 && s[..|header| + 2] == header + "\n\n" then s[|header| + 2..] else ""
  }

  /** The body is recoverable from a headed text: nothing of the original is lost or altered. */
  lemma BodyAfterWithHeader(header: string, body: string)
    ensures BodyAfter(header, WithHeader(header, body)) == body
  {
    if body != "" {
      var s := header + "\n\n" + body;
      assert s[..|header| + 2] == header + "\n\n";
      assert s[|header| + 2..] == body;
    }
  }

  datatype Attachment = Attachment(kind: MediaKind, fileId: string)

  /**
   * The attachment a message carries, checked in the order photo, video,
   * document, audio, voice, sticker; a photo is taken in its last (largest) size.
   */
  function SelectMedia(m: Message): Option<Attachment> {
    if |m.photo| > 0 then Some(Attachment(Photo, m.photo[|m.photo| - 1]))
    else if m.video.Some? then Some(Attachment(Video, m.video.value))
    else if m.document.Some? then Some(Attachment(Document, m.document.value))
    else if m.audio.Some? then Some(Attachment(Audio, m.audio.value))
    else if m.voice.Some? then Some(Attachment(Voice, m.voice.value))
    else if m.sticker.Some? then Some(Attachment(Sticker, m.sticker.value))
    else None
  }

  /** The kinds a message carries, in checking order (reference definition for `SelectMedia`). */
  function PresentKinds(m: Message): seq<MediaKind> {
    (if |m.photo| > 0 then [Photo] else []) +
    (if m.video.Some? then [Video] else []) +
    (if m.document.Some? then [Document] else []) +
    (if m.audio.Some? then [Audio] else []) +
    (if m.voice.Some? then [Voice] else []) +
    (if m.sticker.Some? then [Sticker] else [])
  }

  /** `SelectMedia` picks exactly the first kind present, and nothing when no kind is present. */
  lemma SelectMediaIsFirstPresent(m: Message)
    ensures SelectMedia(m).None? <==> PresentKinds(m) == []
    ensures SelectMedia(m).Some? ==> SelectMedia(m).value.kind == PresentKinds(m)[0]
    ensures |m.photo| > 0 ==> SelectMedia(m) == Some(Attachment(Photo, m.photo[|m.photo| - 1]))
  {
  }

  /** The caption the owner receives with a sender's media, if any. */
  function OwnerCaption(kind: MediaKind, senderInfo: string, caption: string): (c: Option<string>)
    ensures kind == Sticker <==> c.None?
    ensures kind == Voice ==> c == Some(senderInfo)
    ensures kind in {Photo, Video, Document, Audio} ==> c == Some(WithHeader(senderInfo, caption))
  {
    match kind
    case Photo | Video | Document | Audio => Some(WithHeader(senderInfo, caption))
    case Voice => Some(senderInfo)
    case Sticker => None
  }

  datatype ForwardResult = ForwardResult(sends: seq<Outbound>, ack: string)

  /**
   * `forward_media_to_owner`: at most one call, to the owner, carrying the
   * sender line and the Reply/Block buttons; `sendOk` says whether that call
   * succeeds, which decides the acknowledgement the sender sees. Without an
   * attachment no call is made and the acknowledgement is still sent.
   */
  function ForwardMediaToOwner(m: Message, user: User, ownerId: int, sendOk: bool): (r: ForwardResult)
    ensures |r.sends| <= 1
    ensures r.ack == if sendOk || SelectMedia(m).None? then MediaSentAck else MediaErrorNotice
    ensures |r.sends| == 1 <==> sendOk && SelectMedia(m).Some?
    ensures |r.sends| == 1 ==>
              && r.sends[0].SendMedia?
              && r.sends[0].chat == ownerId
              && r.sends[0].kind == SelectMedia(m).value.kind
              && r.sends[0].fileId == SelectMedia(m).value.fileId
              && r.sends[0].buttons == Keyboards.ReplyBlockButtons(user.id)
              && r.sends[0].caption == OwnerCaption(r.sends[0].kind, SenderInfo(user), m.caption)
  {
    match SelectMedia(m)
    case None => ForwardResult([], MediaSentAck)
    case Some(a) =>
      if !sendOk then ForwardResult([], MediaErrorNotice)
      else
        var send := SendMedia(ownerId, a.kind, a.fileId, OwnerCaption(a.kind, SenderInfo(user), m.caption),
                              false, Keyboards.ReplyBlockButtons(user.id));
        ForwardResult([send], MediaSentAck)
  }

  /**
   * `forward_media_from_owner`: the same first-match choice, captions passed
   * through unchanged ("" when missing; none for voice and sticker); true iff
   * the call succeeded or there was nothing to send.
   */
  function ForwardMediaFromOwner(m: Message, target: int, sendOk: bool): (r: (bool, seq<Outbound>))
    ensures r.0 == (sendOk || SelectMedia(m).None?)
    ensures |r.1| <= 1
    ensures |r.1| == 1 ==> r.1[0].SendMedia? && r.1[0].chat == target && !r.1[0].markdown && r.1[0].buttons == []
    ensures |r.1| == 1 && r.1[0].kind !in {Voice, Sticker} ==> r.1[0].caption == Some(m.caption)
    ensures |r.1| == 1 && r.1[0].kind in {Voice, Sticker} ==> r.1[0].caption == None
    ensures |r.1| == 1 <==> sendOk && SelectMedia(m).Some?
    ensures |r.1| == 1 ==> r.1[0].kind == SelectMedia(m).value.kind && r.1[0].fileId == SelectMedia(m).value.fileId
  {
    match SelectMedia(m)
    case None => (true, [])
    case Some(a) =>
      if !sendOk then (false, [])
      else
        var caption := if a.kind in {Voice, Sticker} then None else Some(m.caption);
        (true, [SendMedia(target, a.kind, a.fileId, caption, false, [])])
  }
}
