/**
 * The contact-message collection backed by `messages.json`: POST /contact
 * appends, GET /api/messages lists, PATCH /api/messages/:index/read sets the
 * read flag of one message. Each handler loads the whole array, changes it and
 * writes the whole array back.
 */
module Messages {
  import opened Wrappers
  import opened Store
  import Positional

  datatype Message = Message(name: string, email: string, message: string, timestamp: string, read: bool)

  /** The record POST /contact stores: the submitted fields, the time of submission, unread. */
  function NewMessage(name: string, email: string, message: string, timestamp: string): (m: Message)
    ensures m.name == name && m.email == email && m.message == message
    ensures m.timestamp == timestamp && !m.read
  {
    Message(name, email, message, timestamp, false)
  }

  /** `messages[idx].read = value`: only the read flag changes. */
  function WithRead(m: Message, value: bool): (r: Message)
    ensures r.read == value
    ensures r.name == m.name && r.email == m.email && r.message == m.message && r.timestamp == m.timestamp
  {
    m.(read := value)
  }

  /** Setting the flag to what it already is leaves the message as it was. */
  lemma WithReadSame(m: Message)
    ensures WithRead(m, m.read) == m
  {
  }

  class MessageStore {
    /** The contents of `messages.json`. */
    var doc: Document<Message>

    /** Start-up: `messages.json` is created holding `[]` when it does not exist; an existing file is kept as it is. */
    constructor (existing: Option<Document<Message>>)
      ensures existing.None? ==> doc == Records([])
      ensures existing.Some? ==> doc == existing.value
    {
      doc := if existing.None? then Records([]) else existing.value;
    }

    /**
     * POST /contact. `timestamp` is the ISO-8601 clock reading taken by the
     * handler; `written` is whether the file system accepts the write.
     */
    method Submit(name: string, email: string, message: string, timestamp: string, written: bool)
      returns (r: Outcome<StoreError>)
      modifies this
      ensures old(doc).Records? && written ==> r == Pass
      ensures old(doc).Records? && !written ==> r == Fail(WriteFailed)
      ensures !old(doc).Records? ==> r == Fail(Load(old(doc)).error)
      ensures r.Pass? ==> doc == Records(old(doc).items + [NewMessage(name, email, message, timestamp)])
      ensures r.Fail? ==> doc == old(doc)
    {
      var loaded := Load(doc);
      if loaded.Failure? {
        return Fail(loaded.error);
      }
      var messages := loaded.value;
      messages := messages + [NewMessage(name, email, message, timestamp)];
      if !written {
        return Fail(WriteFailed);
      }
      doc := Records(messages);
      r := Pass;
    }

    /** GET /api/messages: every stored message, in stored order. */
    method List() returns (r: Result<seq<Message>, StoreError>)
      ensures doc.Records? ==> r == Success(doc.items)
      ensures doc.Unreadable? ==> r == Failure(ReadFailed)
      ensures doc.Malformed? ==> r == Failure(InvalidFormat)
    {
      r := Load(doc);
    }

    /** PATCH /api/messages/:index/read; `index` is the parsed path parameter, None for NaN. */
    method MarkRead(index: Option<int>, value: bool, written: bool) returns (r: Outcome<StoreError>)
      modifies this
      ensures !old(doc).Records? ==> r == Fail(Load(old(doc)).error)
      ensures old(doc).Records? && CheckIndex(index, |old(doc).items|).Failure? ==> r == Fail(InvalidIndex)
      ensures old(doc).Records? && CheckIndex(index, |old(doc).items|).Success? ==> r == if written then Pass else Fail(WriteFailed)
      ensures r.Fail? ==> doc == old(doc)
      ensures r.Pass? ==> index.Some? && 0 <= index.value < |old(doc).items|
      ensures r.Pass? ==> doc == Records(Positional.ReplaceAt(old(doc).items, index.value, WithRead(old(doc).items[index.value], value)))
    {
      var loaded := Load(doc);
      if loaded.Failure? {
        return Fail(loaded.error);
      }
      var messages := loaded.value;
      var checked := CheckIndex(index, |messages|);
      if checked.Failure? {
        return Fail(InvalidIndex);
      }
      var idx := checked.value;
      messages := messages[idx := WithRead(messages[idx], value)];
      if !written {
        return Fail(WriteFailed);
      }
      doc := Records(messages);
      r := Pass;
    }
  }

  /** Two successful submissions append their messages one after the other, in submission order. */
  method SubmitInOrder(store: MessageStore, first: Message, second: Message)
    requires store.doc.Records?
    modifies store
    ensures store.doc == Records(Positional.PushAll(old(store.doc).items, [
      NewMessage(first.name, first.email, first.message, first.timestamp),
      NewMessage(second.name, second.email, second.message, second.timestamp)]))
  {
    var m1 := NewMessage(first.name, first.email, first.message, first.timestamp);
    var m2 := NewMessage(second.name, second.email, second.message, second.timestamp);
    ghost var before := store.doc.items;
    var r1 := store.Submit(first.name, first.email, first.message, first.timestamp, true);
    var r2 := store.Submit(second.name, second.email, second.message, second.timestamp, true);
    Positional.PushAllInOrder(before, [m1, m2]);
    assert before + [m1] + [m2] == before + [m1, m2];
  }

  /** A submitted message, then marked read: the list holds one message, read, with the submitted fields. */
  method SubmitThenMarkRead(timestamp: string)
  {
    var store := new MessageStore(None);
    assert store.doc == Records([]);
    var ok := store.Submit("A", "a@x.com", "hi", timestamp, true);
    assert ok == Pass;
    assert store.doc.items == [] + [NewMessage("A", "a@x.com", "hi", timestamp)];
    var listed := store.List();
    assert store.doc.items == [NewMessage("A", "a@x.com", "hi", timestamp)];
    assert listed.value[0] == Message("A", "a@x.com", "hi", timestamp, false);
    assert listed == Success([Message("A", "a@x.com", "hi", timestamp, false)]);
    ok := store.MarkRead(Some(0), true, true);
    assert ok == Pass;
    listed := store.List();
    assert |listed.value| == 1 && listed.value[0] == Message("A", "a@x.com", "hi", timestamp, true);
    assert listed.value == [Message("A", "a@x.com", "hi", timestamp, true)];
    assert listed == Success([Message("A", "a@x.com", "hi", timestamp, true)]);
    ok := store.MarkRead(Some(1), true, true);
    assert ok == Fail(InvalidIndex);
  }
}
