/**
 * The `EmailManager` object of email_manager.py: it owns the list of subscriber
 * records and the storage file, and `subscribe` and `unsubscribe` change them in
 * place. What each call decides, and what the queries answer, is specified in
 * SubscriberStore; the methods here are proved to follow it.
 */
module EmailManagement {
  import opened Wrappers
  import opened PyText
  import opened SubscriberStore

  /** The dictionary `subscribe` returns. */
  datatype SubscribeResponse = SubscribeResponse(
    success: bool,
    message: string,
    email: string,
    subscriber: Option<Subscriber>)

  /** The dictionary `unsubscribe` returns; only a found record puts an e-mail in it. */
  datatype UnsubscribeResponse = UnsubscribeResponse(
    success: bool,
    message: string,
    email: Option<string>)

  const InvalidFormatMessage := "Invalid email format"
  const AlreadySubscribedMessage := "Email already subscribed"
  const SubscribedMessage := "Successfully subscribed to newsletter"
  const SubscribeSaveFailedMessage := "Failed to save subscription"
  const MissingIdentifierMessage := "Email or unsubscribe token required"
  const NotFoundMessage := "Email not found in subscribers"
  const UnsubscribedMessage := "Successfully unsubscribed from newsletter"
  const UnsubscribeSaveFailedMessage := "Failed to save unsubscription"

  class EmailManager {
    /** The records, in insertion order. */
    var subscribers: seq<Subscriber>
    /** What the storage file currently holds. */
    var storage: StoredFile

    /** `__init__`: load the records from the storage file. */
    constructor (file: StoredFile)
      ensures storage == file
      ensures subscribers == LoadSubscribers(file)
    {
      storage := file;
      subscribers := LoadSubscribers(file);
    }

    /** `_save_subscribers`: overwrite the storage file with every record, the count
        and the time `savedAt` read when saving. `writeOk` is whether the file system
        accepted the write. */
    method SaveSubscribers(savedAt: string, writeOk: bool) returns (ok: bool)
      modifies this`storage
      ensures ok == writeOk
      ensures storage == if writeOk then SavedFile(subscribers, savedAt) else old(storage)
    {
      if writeOk {
        storage := Json(Some(subscribers), savedAt, |subscribers|);
      }
      ok := writeOk;
    }

    /** `subscribe(email, name)`. The record is appended before the save, so when the
        save fails the call reports failure while the record stays in memory. `now` is
        the record's time and `savedAt` the later reading taken by the save. */
    method Subscribe(email: string, name: Option<string>, now: string, savedAt: string, token: Token, writeOk: bool)
      returns (r: SubscribeResponse)
      modifies this
      ensures var d := DecideSubscribe(old(subscribers), email, name, now, token);
        && subscribers == ApplySubscribe(old(subscribers), d)
        && storage == (if d.Accepted? && writeOk then SavedFile(subscribers, savedAt) else old(storage))
        && r.email == Normalize(email)
        && r.success == (d.Accepted? && writeOk)
        && r.subscriber == (if d.Accepted? && writeOk then Some(d.record) else None)
        && r.message == match d
                        case InvalidFormat => InvalidFormatMessage
                        case AlreadySubscribed => AlreadySubscribedMessage
                        case Accepted(_) => if writeOk then SubscribedMessage else SubscribeSaveFailedMessage
    {
      ghost var d := DecideSubscribe(subscribers, email, name, now, token);
      var e := Normalize(email);
      if !ValidateEmail(e) {
        assert d == InvalidFormat;
        return SubscribeResponse(false, InvalidFormatMessage, e, None);
      }
      if IsSubscribed(subscribers, e) {
        assert d == AlreadySubscribed;
        return SubscribeResponse(false, AlreadySubscribedMessage, e, None);
      }
      var subscriber := Subscriber(e, StoredName(name), now, true, token, None);
      assert d == Accepted(subscriber);
      ghost var before := subscribers;
      subscribers := subscribers + [subscriber];
      assert subscribers == ApplySubscribe(before, d);
      var saved := SaveSubscribers(savedAt, writeOk);
      if saved {
        r := SubscribeResponse(true, SubscribedMessage, e, Some(subscriber));
      } else {
        r := SubscribeResponse(false, SubscribeSaveFailedMessage, e, None);
      }
    }

    /** `unsubscribe(email, token)`: mark the first matching record inactive, stamp
        the time `now`, and save with the later reading `savedAt`. */
    method Unsubscribe(email: Option<string>, token: Option<string>, now: string, savedAt: string, writeOk: bool)
      returns (r: UnsubscribeResponse)
      modifies this
      ensures var d := DecideUnsubscribe(old(subscribers), email, token);
        && subscribers == ApplyUnsubscribe(old(subscribers), d, now)
        && storage == (if d.Found? && writeOk then SavedFile(subscribers, savedAt) else old(storage))
        && r.success == (d.Found? && writeOk)
        && r.email == (if d.Found? && writeOk then Some(old(subscribers)[d.index].email) else None)
        && r.message == match d
                        case MissingIdentifier => MissingIdentifierMessage
                        case NotFound => NotFoundMessage
                        case Found(_) => if writeOk then UnsubscribedMessage else UnsubscribeSaveFailedMessage
    {
      if !Given(email) && !Given(token) {
        return UnsubscribeResponse(false, MissingIdentifierMessage, None);
      }
      var found: Option<nat>;
      if Given(email) {
        found := FindByEmail(subscribers, Normalize(email.value));
      } else {
        found := FindByToken(subscribers, token.value);
      }
      if found.None? {
        return UnsubscribeResponse(false, NotFoundMessage, None);
      }
      var i := found.value;
      subscribers := subscribers[i := Deactivate(subscribers[i], now)];
      var saved := SaveSubscribers(savedAt, writeOk);
      if saved {
        r := UnsubscribeResponse(true, UnsubscribedMessage, Some(subscribers[i].email));
      } else {
        r := UnsubscribeResponse(false, UnsubscribeSaveFailedMessage, None);
      }
    }
  }
}
