/**
 * The bot's admin gate (services/bot/src/middlewares/admin.py): messages
 * from senders outside `ADMINS` are dropped before they reach the handler;
 * every other kind of update goes through.
 *
 * The handler is a parameter. A dropped event is `None`; a handled one is
 * `Some` of the handler's result, so the model can tell "not called" from a
 * handler that itself returns None.
 */
module AdminMiddleware {
  import opened Common

  /** The Telegram user a message comes from. */
  datatype Sender = Sender(id: int)

  /** A `Message` with its optional `from_user`, or any other update type. */
  datatype Event = MessageEvent(fromUser: Option<Sender>, text: string) | OtherEvent(kind: string)

  /** The gate: anything but a message passes; a message passes when it has a sender in `admins`. */
  predicate Admits(event: Event, admins: seq<int>)
  {
    !event.MessageEvent? || (event.fromUser.Some? && event.fromUser.value.id in admins)
  }

  /** `AdminMiddleware.__call__`: the handler runs once on an admitted event, and not at all otherwise. */
  function Call<D, R>(handler: (Event, D) -> R, event: Event, data: D, admins: seq<int>): (r: Option<R>)
    ensures r.Some? <==> Admits(event, admins)
    ensures r.Some? ==> r.value == handler(event, data)
  {
    if !event.MessageEvent? then Some(handler(event, data))
    else if event.fromUser.None? then None
    else if event.fromUser.value.id !in admins then None
    else Some(handler(event, data))
  }

  /** A message without a sender never reaches the handler, whoever the admins are. */
  lemma AnonymousMessageDropped<D, R>(handler: (Event, D) -> R, text: string, data: D, admins: seq<int>)
    ensures Call(handler, MessageEvent(None, text), data, admins) == None
  {
  }

  /** Adding an admin lets that sender's messages through and changes nothing for anyone else. */
  lemma AddingAdmin(event: Event, admins: seq<int>, id: int)
    ensures Admits(event, admins) ==> Admits(event, admins + [id])
    ensures Admits(event, admins + [id]) && !Admits(event, admins) ==>
      event.MessageEvent? && event.fromUser == Some(Sender(id))
  {
  }
}
