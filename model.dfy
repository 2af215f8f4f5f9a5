/** Messages and dialogs of the relay (internal/model). */
module Model {
  import opened Wrappers

  type Role = string

  const AssistantRole: Role := "assistant"
  const SystemRole: Role := "system"
  const UserRole: Role := "user"

  const ErrEmptyDialog := "EMPTY_DIALOG"

  /** One chat message. `translation` is the optional `*string`; `prefix` marks a primer. */
  datatype Message = Message(role: Role, content: string, translation: Option<string>, prefix: bool)

  /** Go's zero `Message{}`. */
  const ZeroMessage := Message("", "", None, false)

  /** A conversation: live in the registry (`updatedAt` used) or persisted (`id`, `durationS` used).
      Times are nanoseconds on one clock. */
  datatype Dialog = Dialog(id: string, userID: string, messages: seq<Message>,
                           startTime: int, updatedAt: int, durationS: int)

  /** Go's zero `Dialog{}`. */
  const ZeroDialog := Dialog("", "", [], 0, 0, 0)

  /** `Message.Empty` on a value receiver. Empty means "the zero message", whatever the
      translation holds, and an empty message is never part of the conversation. */
  predicate Empty(msg: Message)
    ensures Empty(msg) <==> msg.(translation := None) == ZeroMessage
    ensures Empty(msg) ==> !Conversational(msg)
  {
    msg.role == "" && msg.content == "" && !msg.prefix
  }

  /** `Message.Empty` on a `*Message` receiver; `None` is nil. */
  predicate EmptyRef(msg: Option<Message>)
    ensures EmptyRef(msg) <==> msg == None || msg.value.(translation := None) == ZeroMessage
  {
    msg.None? || Empty(msg.value)
  }

  /** Only nil or a message with no role, no content and no primer flag is empty,
      so an assistant message with empty content is not. */
  lemma EmptyRefCases(msg: Option<Message>)
    ensures EmptyRef(msg) <==> (msg == None || (msg.value.role == "" && msg.value.content == "" && !msg.value.prefix))
    ensures msg.Some? && msg.value.role == AssistantRole ==> !EmptyRef(msg)
  {
  }

  /** The roles that `WithoutSystem` keeps. */
  predicate Conversational(msg: Message) {
    msg.role == UserRole || msg.role == AssistantRole
  }

  /** `Messages.WithoutSystem`: drop every message whose role is neither user nor assistant. */
  function WithoutSystem(msgs: seq<Message>): (r: seq<Message>)
    ensures |r| <= |msgs|
    ensures forall i :: 0 <= i < |r| ==> Conversational(r[i])
  {
    if msgs == [] then []
    else
      assert msgs == [msgs[0]] + msgs[1..];
      if Conversational(msgs[0]) then [msgs[0]] + WithoutSystem(msgs[1..])
      else WithoutSystem(msgs[1..])
  }

  /** The filter is stable: it acts on a concatenation piece by piece, so the kept
      messages stay in their original relative order. */
  lemma {:induction false} WithoutSystemAppend(a: seq<Message>, b: seq<Message>)
    ensures WithoutSystem(a + b) == WithoutSystem(a) + WithoutSystem(b)
  {
    if a == [] {
      assert a + b == b;
    } else {
      assert (a + b)[1..] == a[1..] + b;
      WithoutSystemAppend(a[1..], b);
    }
  }

  /** A single message is kept exactly when it is conversational. */
  lemma WithoutSystemSingleton(msg: Message)
    ensures WithoutSystem([msg]) == if Conversational(msg) then [msg] else []
  {
  }

  /** A sequence of conversational messages passes through unchanged. */
  lemma {:induction false} WithoutSystemKeepsConversational(msgs: seq<Message>)
    requires forall i :: 0 <= i < |msgs| ==> Conversational(msgs[i])
    ensures WithoutSystem(msgs) == msgs
  {
    if msgs != [] {
      WithoutSystemKeepsConversational(msgs[1..]);
    }
  }

  /** A leading non-conversational message followed by conversational ones: the filter drops
      exactly the first. */
  lemma DropLeadingSystem(msgs: seq<Message>)
    requires |msgs| >= 1 && !Conversational(msgs[0])
    requires forall j :: 1 <= j < |msgs| ==> Conversational(msgs[j])
    ensures WithoutSystem(msgs) == msgs[1..]
  {
    var turns := msgs[1..];
    assert WithoutSystem(msgs) == WithoutSystem(turns);
    forall j | 0 <= j < |turns|
      ensures Conversational(turns[j])
    {
      assert turns[j] == msgs[j + 1];
    }
    WithoutSystemKeepsConversational(turns);
  }

  /** The filter keeps every conversational message as often as it occurs and no other message. */
  lemma {:induction false} WithoutSystemCounts(msgs: seq<Message>)
    ensures forall m :: multiset(WithoutSystem(msgs))[m] == if Conversational(m) then multiset(msgs)[m] else 0
  {
    if msgs != [] {
      var rest := msgs[1..];
      WithoutSystemCounts(rest);
      assert msgs == [msgs[0]] + rest;
      assert multiset(msgs) == multiset([msgs[0]]) + multiset(rest);
      if Conversational(msgs[0]) {
        assert multiset(WithoutSystem(msgs)) == multiset([msgs[0]]) + multiset(WithoutSystem(rest));
      } else {
        assert WithoutSystem(msgs) == WithoutSystem(rest);
      }
    }
  }

  /** Filtering twice is filtering once. */
  lemma WithoutSystemIdempotent(msgs: seq<Message>)
    ensures WithoutSystem(WithoutSystem(msgs)) == WithoutSystem(msgs)
  {
    WithoutSystemKeepsConversational(WithoutSystem(msgs));
  }

  /** The seeded system message is dropped and the turn that follows it is kept. */
  lemma WithoutSystemExample()
    ensures WithoutSystem([Message(SystemRole, "persona", None, false),
                           Message(UserRole, "hello", None, false),
                           Message(AssistantRole, "Hallo!", None, false)])
         == [Message(UserRole, "hello", None, false), Message(AssistantRole, "Hallo!", None, false)]
  {
    var user := Message(UserRole, "hello", None, false);
    var reply := Message(AssistantRole, "Hallo!", None, false);
    var msgs := [Message(SystemRole, "persona", None, false), user, reply];
    assert msgs[1..] == [user, reply] && [user, reply][1..] == [reply] && [reply][1..] == [];
    assert WithoutSystem([reply]) == [reply];
    assert WithoutSystem([user, reply]) == [user] + [reply];
  }
}
