/**
 * The entry point for every non-command message: media from anyone but the
 * owner is forwarded to the owner directly; everything else, including the
 * owner's own media, goes to the message handler.
 */
module Routing {
  import opened Wrappers
  import opened Transport
  import opened Media
  import opened Database
  import opened Messages

  /** The media test of `handle_message`: any of the six attachment kinds present. */
  predicate IsMedia(m: Message) {
    |m.photo| > 0 || m.video.Some? || m.document.Some? || m.audio.Some? || m.voice.Some? || m.sticker.Some?
  }

  /** The routing test and the forwarders agree on what counts as media. */
  lemma IsMediaIffSelectable(m: Message)
    ensures IsMedia(m) <==> SelectMedia(m).Some?
    ensures IsMedia(m) <==> PresentKinds(m) != []
  {
    SelectMediaIsFirstPresent(m);
  }

  datatype Handled =
    | MediaForwarded(result: ForwardResult)
    | Dispatched(outcome: Outcome)

  /**
   * `handle_message`. Media from a user other than the owner bypasses the
   * blocked check: it is forwarded whatever the user's flag.
   */
  method HandleMessage(session: OwnerSession, db: DatabaseManager, sender: User, m: Message, env: Env,
                       mediaSendOk: bool) returns (h: Handled)
    requires db.Valid()
    modifies session, db
    ensures db.Valid() && db.users == old(db.users)
    ensures IsMedia(m) && sender.id != env.ownerId ==>
      && h == MediaForwarded(ForwardMediaToOwner(m, sender, env.ownerId, mediaSendOk))
      && session.Data() == old(session.Data()) && db.messages == old(db.messages)
    ensures sender.id == env.ownerId ==>
      && h.Dispatched?
      && Step(session.Data(), h.outcome) == Dispatch(old(session.Data()), m, old(db.users), old(db.messages), env)
      && db.messages == old(db.messages)
    ensures !IsMedia(m) && sender.id != env.ownerId ==>
      && h == Dispatched(RelayUserMessage(old(db.users), sender, m, env).outcome)
      && session.Data() == old(session.Data())
      && db.messages == old(db.messages) + RelayUserMessage(old(db.users), sender, m, env).saved
  {
    if IsMedia(m) && sender.id != env.ownerId {
      return MediaForwarded(ForwardMediaToOwner(m, sender, env.ownerId, mediaSendOk));
    }
    var outcome := session.HandleOwnerMessage(db, sender, m, env);
    h := Dispatched(outcome);
  }
}
