/** The telephonist's dialog store client (internal/telephonist/database/client.go):
    guards, the `messages` array it serialises, and the id it assigns. */
module DialogStore {
  import opened Wrappers
  import opened Model
  import opened Json

  const ErrEmptyDb := "attempt to user empty db"

  /** The `INSERT ... RETURNING id` round trip: (user id, start time, duration in seconds,
      the messages array) to the generated id or the driver's error. */
  type StoreQuery = (string, int, int, Json) -> Result<string, string>

  /** What `StoreDialog` returns: Go's `(model.Dialog, error)`. */
  datatype StoreReply = StoreReply(dialog: Dialog, err: Option<string>)

  /** The object a message becomes: "role", "content" and, only when set, "translation". */
  function MessageObject(msg: Message): (obj: Json)
    ensures obj.Object?
    ensures Keys(obj.fields) == {"role", "content"} + (if msg.translation.Some? then {"translation"} else {})
    ensures GetStringBytes(obj, "role") == Some(msg.role)
    ensures GetStringBytes(obj, "content") == Some(msg.content)
    ensures GetStringBytes(obj, "translation") == msg.translation
    ensures Get(obj.fields, "prefix") == None
  {
    var withRole := Set([], "role", Str(msg.role));
    var base := Set(withRole, "content", Str(msg.content));
    assert Get(base, "role") == Some(Str(msg.role));
    assert Get(base, "translation") == None && Get(base, "prefix") == None;
    if msg.translation.None? then Object(base)
    else
      var full := Set(base, "translation", Str(msg.translation.value));
      assert Get(full, "role") == Some(Str(msg.role)) && Get(full, "content") == Some(Str(msg.content));
      assert Get(full, "prefix") == None;
      Object(full)
  }

  /** The array stored in the `messages` column: one object per message, in order. */
  function EncodeMessages(msgs: seq<Message>): seq<Json> {
    seq(|msgs|, i requires 0 <= i < |msgs| => MessageObject(msgs[i]))
  }

  /** The serialised array has one element per message and element `i` describes message `i`. */
  lemma EncodeMessagesAt(msgs: seq<Message>, i: nat)
    requires i < |msgs|
    ensures |EncodeMessages(msgs)| == |msgs|
    ensures GetStringBytes(EncodeMessages(msgs)[i], "role") == Some(msgs[i].role)
    ensures GetStringBytes(EncodeMessages(msgs)[i], "content") == Some(msgs[i].content)
    ensures GetStringBytes(EncodeMessages(msgs)[i], "translation") == msgs[i].translation
    ensures Get(EncodeMessages(msgs)[i].fields, "prefix") == None
  {
  }

  /** The result `StoreDialog` promises for a client whose handle is `db` (None: nil handle). */
  function StoreDialogSpec(db: Option<StoreQuery>, dialog: Dialog): StoreReply {
    if db.None? then StoreReply(ZeroDialog, Some(ErrEmptyDb))
    else if dialog.messages == [] then StoreReply(ZeroDialog, Some(ErrEmptyDialog))
    else
      match db.value(dialog.userID, dialog.startTime, dialog.durationS, Array(EncodeMessages(dialog.messages)))
      case Ok(id) => StoreReply(dialog.(id := id), None)
      case Err(e) => StoreReply(ZeroDialog, Some(e))
  }

  /** `client.StoreDialog`: build the messages array item by item, run the insert, set the id. */
  method StoreDialog(db: Option<StoreQuery>, dialog: Dialog) returns (reply: StoreReply)
    ensures reply == StoreDialogSpec(db, dialog)
  {
    if db.None? {
      return StoreReply(ZeroDialog, Some(ErrEmptyDb));
    }
    if |dialog.messages| == 0 {
      return StoreReply(ZeroDialog, Some(ErrEmptyDialog));
    }
    var items: seq<Json> := [];
    var i := 0;
    while i < |dialog.messages|
      invariant 0 <= i <= |dialog.messages|
      invariant |items| == i
      invariant forall k :: 0 <= k < i ==> items[k] == MessageObject(dialog.messages[k])
    {
      var msg := dialog.messages[i];
      var obj := Set([], "role", Str(msg.role));
      obj := Set(obj, "content", Str(msg.content));
      if msg.translation.Some? {
        obj := Set(obj, "translation", Str(msg.translation.value));
      }
      assert Object(obj) == MessageObject(msg);
      items := SetArrayItem(items, i, Object(obj));
      i := i + 1;
    }
    assert items == EncodeMessages(dialog.messages);
    var row := db.value(dialog.userID, dialog.startTime, dialog.durationS, Array(items));
    if row.Err? {
      return StoreReply(ZeroDialog, Some(row.error));
    }
    var stored := dialog.(id := row.value);
    reply := StoreReply(stored, None);
  }

  /** A nil handle is reported before an empty message list is. */
  lemma NilDbComesFirst(dialog: Dialog)
    ensures StoreDialogSpec(None, dialog) == StoreReply(ZeroDialog, Some(ErrEmptyDb))
  {
  }

  /** With a handle, an empty message list is `ErrEmptyDialog` and the query is not run. */
  lemma EmptyDialogRejected(q: StoreQuery, dialog: Dialog)
    requires dialog.messages == []
    ensures StoreDialogSpec(Some(q), dialog) == StoreReply(ZeroDialog, Some(ErrEmptyDialog))
  {
  }

  /** On success the returned dialog is the input with only the id replaced by the query's. */
  lemma StoreKeepsDialog(q: StoreQuery, dialog: Dialog)
    requires dialog.messages != []
    ensures var reply := StoreDialogSpec(Some(q), dialog);
            reply.err.None? <==> q(dialog.userID, dialog.startTime, dialog.durationS, Array(EncodeMessages(dialog.messages))).Ok?
    ensures var reply := StoreDialogSpec(Some(q), dialog);
            reply.err.None? ==> reply.dialog.(id := dialog.id) == dialog && reply.dialog.id == q(dialog.userID, dialog.startTime, dialog.durationS, Array(EncodeMessages(dialog.messages))).value
  {
  }
}
