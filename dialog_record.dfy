/** The companion's dialog row and its conversion to a dialog
    (internal/companion/database/dialog.go). */
module DialogRecord {
  import opened Wrappers
  import opened Model
  import opened Json
  import DialogStore

  /** A `dialogs` row; `messages` holds the JSON text the telephonist stored. */
  datatype DbDialog = DbDialog(id: string, userID: string, messages: string, startTime: int, durationS: int)

  /** fastjson's `Parser.Parse` on the row's text. */
  type Parse = string -> Result<Json, string>

  const ErrNotArray := "value doesn't contain array"

  /** Go's `string(nil)` is "". */
  function OrEmpty(s: Option<string>): string {
    if s.Some? then s.value else ""
  }

  /** One array element to a message: missing or non-string fields read as "", the primer flag is false. */
  function DecodeMessage(raw: Json): (msg: Message)
    ensures msg.role == OrEmpty(GetStringBytes(raw, "role"))
    ensures msg.content == OrEmpty(GetStringBytes(raw, "content"))
    ensures msg.translation.Some? <==> raw.Object? && Get(raw.fields, "translation").Some? && Get(raw.fields, "translation").value.Str?
    ensures msg.translation.Some? ==> Get(raw.fields, "translation") == Some(Str(msg.translation.value))
    ensures !msg.prefix
  {
    Message(OrEmpty(GetStringBytes(raw, "role")), OrEmpty(GetStringBytes(raw, "content")),
            GetStringBytes(raw, "translation"), false)
  }

  function DecodeMessages(items: seq<Json>): seq<Message> {
    seq(|items|, i requires 0 <= i < |items| => DecodeMessage(items[i]))
  }

  /** `dbDialog.ToModel`: parse the text, demand an array, convert element by element. */
  method ToModel(row: DbDialog, parse: Parse) returns (dialog: Dialog, err: Option<string>)
    ensures parse(row.messages).Err? ==> dialog == ZeroDialog && err == Some(parse(row.messages).error)
    ensures parse(row.messages).Ok? && !parse(row.messages).value.Array? ==>
              dialog == ZeroDialog && err == Some(ErrNotArray)
    ensures parse(row.messages).Ok? && parse(row.messages).value.Array? ==>
              var items := parse(row.messages).value.items;
              && err == None
              && dialog.id == row.id && dialog.userID == row.userID
              && dialog.startTime == row.startTime && dialog.durationS == row.durationS
              && dialog.updatedAt == 0
              && |dialog.messages| == |items|
              && (forall i :: 0 <= i < |items| ==> dialog.messages[i] == DecodeMessage(items[i]))
  {
    var raw := parse(row.messages);
    if raw.Err? {
      return ZeroDialog, Some(raw.error);
    }
    if !raw.value.Array? {
      return ZeroDialog, Some(ErrNotArray);
    }
    var arr := raw.value.items;
    var messages: seq<Message> := [];
    var i := 0;
    while i < |arr|
      invariant 0 <= i <= |arr|
      invariant |messages| == i
      invariant forall k :: 0 <= k < i ==> messages[k] == DecodeMessage(arr[k])
    {
      var element := arr[i];
      var msg := Message(OrEmpty(GetStringBytes(element, "role")), OrEmpty(GetStringBytes(element, "content")), None, false);
      var translation := GetStringBytes(element, "translation");
      if translation.Some? {
        msg := msg.(translation := Some(translation.value));
      }
      messages := messages + [msg];
      i := i + 1;
    }
    dialog := Dialog(row.id, row.userID, messages, row.startTime, 0, row.durationS);
    err := None;
  }

  /** Reading back the array the store writes recovers every message's role, content and
      translation; only the primer flag, which is never written, comes back false. */
  lemma {:induction false} DecodeEncode(msgs: seq<Message>)
    ensures DecodeMessages(DialogStore.EncodeMessages(msgs)) == seq(|msgs|, i requires 0 <= i < |msgs| => msgs[i].(prefix := false))
  {
    var items := DialogStore.EncodeMessages(msgs);
    forall i | 0 <= i < |msgs|
      ensures DecodeMessage(items[i]) == msgs[i].(prefix := false)
    {
      DialogStore.EncodeMessagesAt(msgs, i);
    }
  }

  /** A dialog whose messages carry no primer flag (every stored dialog) survives the round trip unchanged. */
  lemma RoundTripWithoutPrimers(msgs: seq<Message>)
    requires forall i :: 0 <= i < |msgs| ==> !msgs[i].prefix
    ensures DecodeMessages(DialogStore.EncodeMessages(msgs)) == msgs
  {
    DecodeEncode(msgs);
  }
}
