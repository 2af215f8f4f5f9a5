/** The conversation-session controller (internal/telephonist/walkietalkie). */
module WalkieTalkie {
  import opened Wrappers
  import opened Model
  import DialogStore
  import Translator

  // ---------------------------------------------------------------------------
  // Constants of the persona protocol and of the clock

  const MistralSmall := "mistral-small-latest"

  /** The primer fragment sent as the last, flagged assistant message of every request. */
  const ChatPrefixContent :=
    "\n\tI am a language learning assitant. I help users to practice conversating skills in German.\n"
    + "\tI can speak German and only German, I refuse to speak in any other language.\n"
    + "\n\tANSWER:\n"

  /** The persona directive that seeds every new session. */
  const ChatSystemContent :=
    "\n\tYou are a language learning assistant. You help users to practice conversating skills in German.\n"
    + "\tYou can speak in German and only German. If you get a message not in German, you politely ask user to repeat their line in German.\n"
    + "\tYou use simple vocabulary unless the user asks you not to.\n"
    + "\tYou act friendly and interested in user's speach.\n"
    + "\tYou are politeful and gentle. You refuse to swear in bad words and tell hateful sentences.\n"

  /** Times are nanoseconds, as in Go's `time.Duration`. */
  const Second := 1_000_000_000
  const Minute := 60 * Second
  const IdleTimeout := 10 * Minute

  const SystemMessage := Message(SystemRole, ChatSystemContent, None, false)
  const PrimerMessage := Message(AssistantRole, ChatPrefixContent, None, true)

  function UserMessage(input: string): Message {
    Message(UserRole, input, None, false)
  }

  // ---------------------------------------------------------------------------
  // The chat-completion wire types

  datatype MistralRequest = MistralRequest(model: string, messages: seq<Message>)
  datatype MistralChoice = MistralChoice(index: int, message: Message, finishReason: string)
  datatype MistralResponse = MistralResponse(choices: seq<MistralChoice>)

  /** `getMistralResponse`: (bearer key, request) to the decoded response or a transport/parse error. */
  type ChatCompletion = (string, MistralRequest) -> Result<MistralResponse, string>

  /** `mistralResponse.Message`: the message of the last choice, the zero message when there is none. */
  function ResponseMessage(mr: MistralResponse): (msg: Message)
    ensures mr.choices == [] ==> msg == ZeroMessage
    ensures mr.choices != [] ==> msg == mr.choices[|mr.choices| - 1].message
  {
    if |mr.choices| > 0 then mr.choices[|mr.choices| - 1].message else ZeroMessage
  }

  /** Choices are never merged: whatever precedes it, the last choice decides. */
  lemma LastChoiceWins(earlier: seq<MistralChoice>, last: MistralChoice)
    ensures ResponseMessage(MistralResponse(earlier + [last])) == last.message
  {
  }

  // ---------------------------------------------------------------------------
  // strings.TrimSpace

  /** `unicode.IsSpace`: the ASCII spaces, NEL, NBSP and the other Unicode White_Space code points. */
  predicate IsSpace(c: char) {
    c == '\t' || c == '\n' || c == '\U{000B}' || c == '\U{000C}' || c == '\r' || c == ' '
    || c == '\U{0085}' || c == '\U{00A0}' || c == '\U{1680}'
    || ('\U{2000}' <= c <= '\U{200A}')
    || c == '\U{2028}' || c == '\U{2029}' || c == '\U{202F}' || c == '\U{205F}' || c == '\U{3000}'
  }

  /** Drop leading spaces: the result is the suffix after the longest all-space prefix. */
  function TrimLeft(s: string): (r: string)
    ensures |r| <= |s| && r == s[|s| - |r|..]
    ensures forall k :: 0 <= k < |s| - |r| ==> IsSpace(s[k])
    ensures r != [] ==> !IsSpace(r[0])
  {
    if s != [] && IsSpace(s[0]) then TrimLeft(s[1..]) else s
  }

  /** Drop trailing spaces: the result is the prefix before the longest all-space suffix. */
  function TrimRight(s: string): (r: string)
    ensures |r| <= |s| && r == s[..|r|]
    ensures forall k :: |r| <= k < |s| ==> IsSpace(s[k])
    ensures r != [] ==> !IsSpace(r[|r| - 1])
  {
    if s != [] && IsSpace(s[|s| - 1]) then TrimRight(s[..|s| - 1]) else s
  }

  /** `strings.TrimSpace`: the middle of `s` left after dropping the white space at both ends. */
  function TrimSpace(s: string): (r: string)
    ensures var l := |s| - |TrimLeft(s)|;
            l + |r| <= |s| && r == s[l..l + |r|]
            && (forall k :: 0 <= k < l ==> IsSpace(s[k]))
            && (forall k :: l + |r| <= k < |s| ==> IsSpace(s[k]))
    ensures r != [] ==> !IsSpace(r[0]) && !IsSpace(r[|r| - 1])
  {
    TrimRight(TrimLeft(s))
  }

  /** TrimSpace removes exactly the surrounding spaces: a string with none is kept,
      and a string of spaces only becomes empty. */
  lemma TrimSpaceFixesTrimmed(s: string)
    requires s == [] || (!IsSpace(s[0]) && !IsSpace(s[|s| - 1]))
    ensures TrimSpace(s) == s
  {
  }

  lemma {:induction false} TrimSpaceAllSpaces(s: string)
    requires forall k :: 0 <= k < |s| ==> IsSpace(s[k])
    ensures TrimSpace(s) == ""
  {
    if s != [] {
      assert TrimLeft(s) == TrimLeft(s[1..]);
      TrimSpaceAllSpaces(s[1..]);
    }
  }

  // ---------------------------------------------------------------------------
  // withoutChatPrefix

  /** `withoutChatPrefix`. The primer flag is cleared; a non-empty assistant reply loses exactly
      `|ChatPrefixContent|` leading characters and is trimmed. `None` is the run-time panic
      (slice bounds out of range) of a non-empty assistant reply shorter than the fragment. */
  function WithoutChatPrefix(msg: Message): (r: Option<Message>)
    ensures r.None? <==> msg.role == AssistantRole && 0 < |msg.content| < |ChatPrefixContent|
    ensures r.Some? ==> !r.value.prefix && r.value.role == msg.role && r.value.translation == msg.translation
    ensures r.Some? && msg.role == AssistantRole && msg.content != [] ==>
              r.value.content == TrimSpace(msg.content[|ChatPrefixContent|..])
    ensures (msg.role != AssistantRole || msg.content == []) ==> r == Some(msg.(prefix := false))
  {
    if |msg.content| > 0 && msg.role == AssistantRole then
      if |msg.content| < |ChatPrefixContent| then None
      else Some(msg.(prefix := false, content := TrimSpace(msg.content[|ChatPrefixContent|..])))
    else Some(msg.(prefix := false))
  }

  /** A reply that echoes the fragment comes back as the trimmed remainder. */
  lemma StripEchoedPrefix(rest: string, translation: Option<string>, prefix: bool)
    ensures WithoutChatPrefix(Message(AssistantRole, ChatPrefixContent + rest, translation, prefix))
         == Some(Message(AssistantRole, TrimSpace(rest), translation, false))
  {
    assert (ChatPrefixContent + rest)[|ChatPrefixContent|..] == rest;
  }

  // ---------------------------------------------------------------------------
  // The specification of Talk

  /** A fresh session: the persona directive only, started now. */
  function NewSession(userID: string, now: int): Dialog {
    Dialog("", userID, [SystemMessage], now, 0, 0)
  }

  /** The session Talk works on: the stored one, or a fresh one for an unknown user. */
  function SessionFor(dialogs: map<string, Dialog>, userID: string, now: int): Dialog {
    if userID in dialogs then dialogs[userID] else NewSession(userID, now)
  }

  /** The session after the user's turn is appended and the activity time is set. */
  function WithUserTurn(session: Dialog, input: string, now: int): Dialog {
    session.(messages := session.messages + [UserMessage(input)], updatedAt := now)
  }

  /** The request for a history: the history and then the primer. */
  function RequestFor(history: seq<Message>): MistralRequest {
    MistralRequest(MistralSmall, history + [PrimerMessage])
  }

  /** The registry after a Talk, the answer returned and whether the call panicked. */
  datatype TalkResult = TalkResult(dialogs: map<string, Dialog>, answer: string, panicked: bool)

  function TalkSpec(dialogs: map<string, Dialog>, userID: string, key: string, input: string,
                    now: int, llm: ChatCompletion): TalkResult
  {
    var turn := WithUserTurn(SessionFor(dialogs, userID, now), input, now);
    match llm(key, RequestFor(turn.messages))
    case Err(_) => TalkResult(dialogs, "", false)
    case Ok(response) =>
      match WithoutChatPrefix(ResponseMessage(response))
      case None => TalkResult(dialogs, "", true)
      case Some(reply) =>
        if Empty(reply) then TalkResult(dialogs, "", false)
        else TalkResult(dialogs[userID := turn.(messages := turn.messages + [reply])], reply.content, false)
  }

  /** The reply Talk would keep, when the call gets that far. */
  function CleanReply(llm: ChatCompletion, key: string, request: MistralRequest): Option<Message> {
    if llm(key, request).Ok? then WithoutChatPrefix(ResponseMessage(llm(key, request).value)) else None
  }

  /** The request is the session's messages with the new user turn, then exactly one primer. */
  lemma TalkRequestShape(dialogs: map<string, Dialog>, userID: string, input: string, now: int)
    ensures var request := RequestFor(WithUserTurn(SessionFor(dialogs, userID, now), input, now).messages);
            var history := SessionFor(dialogs, userID, now).messages;
            && request.model == MistralSmall
            && request.messages == history + [UserMessage(input), PrimerMessage]
            && request.messages[|request.messages| - 1].prefix
            && request.messages[|request.messages| - 1].content == ChatPrefixContent
  {
    var history := SessionFor(dialogs, userID, now).messages;
    assert history + [UserMessage(input)] + [PrimerMessage] == history + [UserMessage(input), PrimerMessage];
  }

  /** For an unknown user a successful Talk stores [system, user, reply] under the user id and answers the reply. */
  lemma TalkNewUser(dialogs: map<string, Dialog>, userID: string, key: string, input: string,
                    now: int, llm: ChatCompletion)
    requires userID !in dialogs
    requires var reply := CleanReply(llm, key, RequestFor([SystemMessage, UserMessage(input)]));
             reply.Some? && !Empty(reply.value)
    ensures var reply := CleanReply(llm, key, RequestFor([SystemMessage, UserMessage(input)])).value;
            var r := TalkSpec(dialogs, userID, key, input, now, llm);
            && r.answer == reply.content && !r.panicked
            && r.dialogs == dialogs[userID := Dialog("", userID, [SystemMessage, UserMessage(input), reply], now, now, 0)]
  {
    var history := [SystemMessage, UserMessage(input)];
    var reply := CleanReply(llm, key, RequestFor(history)).value;
    var turn := WithUserTurn(SessionFor(dialogs, userID, now), input, now);
    assert turn.messages == history;
    assert turn == Dialog("", userID, history, now, now, 0);
    assert history + [reply] == [SystemMessage, UserMessage(input), reply];
  }

  /** For a known user a successful Talk appends exactly the user turn and the reply. */
  lemma TalkExistingUser(dialogs: map<string, Dialog>, userID: string, key: string, input: string,
                         now: int, llm: ChatCompletion)
    requires userID in dialogs
    requires var reply := CleanReply(llm, key, RequestFor(dialogs[userID].messages + [UserMessage(input)]));
             reply.Some? && !Empty(reply.value)
    ensures var reply := CleanReply(llm, key, RequestFor(dialogs[userID].messages + [UserMessage(input)])).value;
            var r := TalkSpec(dialogs, userID, key, input, now, llm);
            && r.answer == reply.content && !r.panicked
            && userID in r.dialogs
            && r.dialogs[userID].messages == dialogs[userID].messages + [UserMessage(input), reply]
            && r.dialogs[userID] == dialogs[userID].(messages := r.dialogs[userID].messages, updatedAt := now)
  {
    var msgs := dialogs[userID].messages;
    assert msgs + [UserMessage(input)] + [CleanReply(llm, key, RequestFor(msgs + [UserMessage(input)])).value]
        == msgs + [UserMessage(input), CleanReply(llm, key, RequestFor(msgs + [UserMessage(input)])).value];
  }

  /** A failed call, a panic or an empty cleaned reply answers "" and leaves the registry as it was;
      of these, only a successful call whose reply cannot be cleaned is flagged as a panic. */
  lemma TalkFailureKeepsRegistry(dialogs: map<string, Dialog>, userID: string, key: string, input: string,
                                 now: int, llm: ChatCompletion)
    requires var reply := CleanReply(llm, key, RequestFor(WithUserTurn(SessionFor(dialogs, userID, now), input, now).messages));
             reply.None? || Empty(reply.value)
    ensures TalkSpec(dialogs, userID, key, input, now, llm).dialogs == dialogs
    ensures TalkSpec(dialogs, userID, key, input, now, llm).answer == ""
    ensures var request := RequestFor(WithUserTurn(SessionFor(dialogs, userID, now), input, now).messages);
            TalkSpec(dialogs, userID, key, input, now, llm).panicked
            <==> llm(key, request).Ok? && CleanReply(llm, key, request).None?
  {
  }

  /** Talk panics exactly when the call succeeds with a non-empty assistant reply shorter than
      the fragment; the panic leaves the registry as it was and answers "". */
  lemma TalkPanicsExactly(dialogs: map<string, Dialog>, userID: string, key: string, input: string,
                          now: int, llm: ChatCompletion)
    ensures var request := RequestFor(WithUserTurn(SessionFor(dialogs, userID, now), input, now).messages);
            var r := TalkSpec(dialogs, userID, key, input, now, llm);
            && (r.panicked <==> llm(key, request).Ok?
                                && ResponseMessage(llm(key, request).value).role == AssistantRole
                                && 0 < |ResponseMessage(llm(key, request).value).content| < |ChatPrefixContent|)
            && (r.panicked ==> r.dialogs == dialogs && r.answer == "")
  {
  }

  /** Talk never touches another user's entry. */
  lemma TalkTouchesOnlyItsUser(dialogs: map<string, Dialog>, userID: string, key: string, input: string,
                               now: int, llm: ChatCompletion, other: string)
    requires other != userID
    ensures var r := TalkSpec(dialogs, userID, key, input, now, llm);
            (other in r.dialogs <==> other in dialogs) && (other in dialogs ==> r.dialogs[other] == dialogs[other])
  {
  }

  /** A reply that is the bare fragment is cleaned to empty content, yet it is an assistant message
      and so not `Empty`: Talk answers "" and still stores the turn. */
  lemma BareFragmentReplyIsStored(dialogs: map<string, Dialog>, userID: string, key: string, input: string,
                                  now: int, llm: ChatCompletion)
    requires var request := RequestFor(WithUserTurn(SessionFor(dialogs, userID, now), input, now).messages);
             && llm(key, request).Ok?
             && ResponseMessage(llm(key, request).value) == Message(AssistantRole, ChatPrefixContent, None, false)
    ensures var r := TalkSpec(dialogs, userID, key, input, now, llm);
            var turn := WithUserTurn(SessionFor(dialogs, userID, now), input, now);
            && r.answer == "" && !r.panicked
            && r.dialogs == dialogs[userID := turn.(messages := turn.messages + [Message(AssistantRole, "", None, false)])]
  {
    BareFragmentCleansToEmpty();
  }

  lemma BareFragmentCleansToEmpty()
    ensures WithoutChatPrefix(Message(AssistantRole, ChatPrefixContent, None, false)) == Some(Message(AssistantRole, "", None, false))
  {
    var msg := Message(AssistantRole, ChatPrefixContent, None, false);
    assert msg.content[|ChatPrefixContent|..] == [];
    assert TrimSpace([]) == [];
  }

  // ---------------------------------------------------------------------------
  // The specification of Stop

  /** `int(time.Since(start).Seconds())`: elapsed seconds, truncated toward zero. */
  function ElapsedSeconds(start: int, now: int): (s: int)
    ensures now - start >= 0 ==> s >= 0 && s * Second <= now - start < (s + 1) * Second
    ensures now - start < 0 ==> s <= 0 && (s - 1) * Second < now - start <= s * Second
  {
    var d := now - start;
    if d >= 0 then d / Second else -((-d) / Second)
  }

  /** What Stop hands to the store: the conversational messages and the elapsed seconds. */
  function ForStore(session: Dialog, now: int): Dialog {
    session.(messages := WithoutSystem(session.messages), durationS := ElapsedSeconds(session.startTime, now))
  }

  /** A session is worth persisting when at least two conversational messages remain. */
  predicate Persistable(session: Dialog) {
    |WithoutSystem(session.messages)| >= 2
  }

  /** The store client `Stop` calls: `IClient.StoreDialog`. */
  type StoreDialogCall = Dialog -> DialogStore.StoreReply

  /** The registry after Stop, the id and error returned, the argument of the store call
      (None: not called) and the dialog given to the translation tail (None: no tail). */
  datatype StopResult = StopResult(dialogs: map<string, Dialog>, id: string, err: Option<string>,
                                   stored: Option<Dialog>, tail: Option<Dialog>)

  function StopSpec(dialogs: map<string, Dialog>, userID: string, now: int, store: StoreDialogCall): StopResult {
    if userID !in dialogs then StopResult(dialogs, "", None, None, None)
    else if !Persistable(dialogs[userID]) then StopResult(dialogs - {userID}, "", None, None, None)
    else
      var arg := ForStore(dialogs[userID], now);
      var reply := store(arg);
      StopResult(dialogs - {userID}, reply.dialog.id, reply.err, Some(arg), Some(reply.dialog))
  }

  /** Stop always removes the user's entry and nothing else. */
  lemma StopRemovesEntry(dialogs: map<string, Dialog>, userID: string, now: int, store: StoreDialogCall)
    ensures StopSpec(dialogs, userID, now, store).dialogs == dialogs - {userID}
  {
  }

  /** An absent entry, or fewer than two conversational messages, gives ("", nil) and no store call. */
  lemma StopWithoutStore(dialogs: map<string, Dialog>, userID: string, now: int, store: StoreDialogCall)
    requires userID !in dialogs || |WithoutSystem(dialogs[userID].messages)| < 2
    ensures var r := StopSpec(dialogs, userID, now, store);
            r.id == "" && r.err == None && r.stored == None && r.tail == None
  {
  }

  /** Otherwise the store gets the filtered messages and the duration once, and its id and error are returned. */
  lemma StopStores(dialogs: map<string, Dialog>, userID: string, now: int, store: StoreDialogCall)
    requires userID in dialogs && |WithoutSystem(dialogs[userID].messages)| >= 2
    ensures var r := StopSpec(dialogs, userID, now, store);
            var d := dialogs[userID];
            && r.stored == Some(d.(messages := WithoutSystem(d.messages), durationS := ElapsedSeconds(d.startTime, now)))
            && r.id == store(r.stored.value).dialog.id
            && r.err == store(r.stored.value).err
            && r.tail == Some(store(r.stored.value).dialog)
  {
  }

  /** A second Stop right after the first is a no-op: the store is called at most once in total. */
  lemma StopTwice(dialogs: map<string, Dialog>, userID: string, now: int, later: int, store: StoreDialogCall)
    ensures var first := StopSpec(dialogs, userID, now, store);
            var second := StopSpec(first.dialogs, userID, later, store);
            && second == StopResult(first.dialogs, "", None, None, None)
  {
  }

  // ---------------------------------------------------------------------------
  // The translation tail

  /** `IClient.UpdateDialog`: the error, if any. */
  type UpdateDialogCall = Dialog -> Option<string>

  /** The texts sent for translation: every message's content, in order. */
  function Texts(msgs: seq<Message>): seq<string> {
    seq(|msgs|, i requires 0 <= i < |msgs| => msgs[i].content)
  }

  /** How the detached tail ends: translation failed, it panicked on an index past the messages
      (more translations than messages), or the update ran with the given error result. */
  datatype TailOutcome = TranslateFailed(err: string) | IndexPanic | Updated(dialog: Dialog, updateErr: Option<string>)

  /** The goroutine Stop launches, run as a separate step after Stop. */
  method TranslateTail(dialog: Dialog, translate: Translator.Translate, update: UpdateDialogCall) returns (outcome: TailOutcome)
    ensures translate(Texts(dialog.messages)).Err? ==> outcome == TranslateFailed(translate(Texts(dialog.messages)).error)
    ensures translate(Texts(dialog.messages)).Ok? && |translate(Texts(dialog.messages)).value| > |dialog.messages| ==>
              outcome == IndexPanic
    ensures translate(Texts(dialog.messages)).Ok? && |translate(Texts(dialog.messages)).value| <= |dialog.messages| ==>
              var translated := translate(Texts(dialog.messages)).value;
              && outcome.Updated?
              && outcome.dialog == dialog.(messages := outcome.dialog.messages)
              && |outcome.dialog.messages| == |dialog.messages|
              && (forall i :: 0 <= i < |translated| ==>
                    outcome.dialog.messages[i] == dialog.messages[i].(translation := Some(translated[i])))
              && (forall i :: |translated| <= i < |dialog.messages| ==> outcome.dialog.messages[i] == dialog.messages[i])
              && outcome.updateErr == update(outcome.dialog)
  {
    var texts: seq<string> := [];
    var i := 0;
    while i < |dialog.messages|
      invariant 0 <= i <= |dialog.messages|
      invariant |texts| == i
      invariant forall k :: 0 <= k < i ==> texts[k] == dialog.messages[k].content
    {
      texts := texts + [dialog.messages[i].content];
      i := i + 1;
    }
    assert texts == Texts(dialog.messages);

    var result := translate(texts);
    if result.Err? {
      return TranslateFailed(result.error);
    }
    var translated := result.value;
    var msgs := dialog.messages;
    var j := 0;
    while j < |translated|
      invariant 0 <= j <= |translated|
      invariant j <= |msgs| == |dialog.messages|
      invariant forall k :: 0 <= k < j ==> msgs[k] == dialog.messages[k].(translation := Some(translated[k]))
      invariant forall k :: j <= k < |msgs| ==> msgs[k] == dialog.messages[k]
    {
      if j >= |msgs| {
        return IndexPanic;
      }
      msgs := msgs[j := msgs[j].(translation := Some(translated[j]))];
      j := j + 1;
    }
    var translatedDialog := dialog.(messages := msgs);
    var err := update(translatedDialog);
    outcome := Updated(translatedDialog, err);
  }

  /** When the real store fails, the tail gets the zero dialog and the real translator refuses its empty batch. */
  lemma FailedStoreStarvesTail(db: Option<DialogStore.StoreQuery>, dialog: Dialog, request: Translator.Translate)
    requires DialogStore.StoreDialogSpec(db, dialog).err.Some?
    ensures Translator.YaTranslate(Texts(DialogStore.StoreDialogSpec(db, dialog).dialog.messages), request)
         == Err(Translator.ErrEmptyTexts)
  {
  }

  // ---------------------------------------------------------------------------
  // The idle sweep

  /** `UpdatedAt + 10min` is strictly before `now`: idle for more than ten minutes, which is
      at least 600 whole seconds. */
  predicate Stale(session: Dialog, now: int)
    ensures Stale(session, now) <==> now - session.updatedAt > 10 * Minute
    ensures Stale(session, now) ==> ElapsedSeconds(session.updatedAt, now) >= 600
    ensures !Stale(session, now) ==> ElapsedSeconds(session.updatedAt, now) <= 600
  {
    session.updatedAt + IdleTimeout < now
  }

  /** Eleven idle minutes are stale, one is not, and exactly ten is not yet. */
  lemma StaleThreshold(session: Dialog, now: int)
    ensures Stale(session.(updatedAt := now - 11 * Minute), now)
    ensures !Stale(session.(updatedAt := now - Minute), now)
    ensures !Stale(session.(updatedAt := now - 10 * Minute), now)
  {
  }

  /** The store calls a sweep makes when it stops the keys of `order`, in that order. */
  function PlannedStores(sessions: map<string, Dialog>, order: seq<string>, now: int): seq<Dialog> {
    if order == [] then []
    else
      var k := order[|order| - 1];
      PlannedStores(sessions, order[..|order| - 1], now)
        + (if k in sessions && Persistable(sessions[k]) then [ForStore(sessions[k], now)] else [])
  }

  /** The translation tails a sweep launches when it stops the keys of `order`, in that order. */
  function PlannedTails(sessions: map<string, Dialog>, order: seq<string>, now: int, store: StoreDialogCall): seq<Dialog> {
    if order == [] then []
    else
      var k := order[|order| - 1];
      PlannedTails(sessions, order[..|order| - 1], now, store)
        + (if k in sessions && Persistable(sessions[k]) then [store(ForStore(sessions[k], now)).dialog] else [])
  }

  /** The registry during a sweep: the sessions not yet visited and the fresh ones visited. */
  function Survivors(start: map<string, Dialog>, remaining: set<string>, now: int): map<string, Dialog> {
    map k | k in start && (k in remaining || !Stale(start[k], now)) :: start[k]
  }

  lemma SurvivorsStep(start: map<string, Dialog>, remaining: set<string>, k: string, now: int)
    requires k in remaining && k in start
    ensures Stale(start[k], now) ==> Survivors(start, remaining - {k}, now) == Survivors(start, remaining, now) - {k}
    ensures !Stale(start[k], now) ==> Survivors(start, remaining - {k}, now) == Survivors(start, remaining, now)
  {
  }

  /** The keys a sweep has stopped so far: each once, each stale, and every stale visited key. */
  ghost predicate SweepOrder(start: map<string, Dialog>, remaining: set<string>, order: seq<string>, now: int) {
    && (forall i :: 0 <= i < |order| ==> order[i] in start && order[i] !in remaining && Stale(start[order[i]], now))
    && (forall k :: k in start && k !in remaining && Stale(start[k], now) ==> k in order)
    && (forall i, j :: 0 <= i < j < |order| ==> order[i] != order[j])
  }

  lemma SweepOrderStep(start: map<string, Dialog>, remaining: set<string>, order: seq<string>, k: string, now: int)
    requires SweepOrder(start, remaining, order, now) && k in remaining && k in start
    ensures Stale(start[k], now) ==> SweepOrder(start, remaining - {k}, order + [k], now)
    ensures !Stale(start[k], now) ==> SweepOrder(start, remaining - {k}, order, now)
  {
  }

  /** Stopping one more key extends the planned store calls and tails by that key's share. */
  lemma PlannedStep(sessions: map<string, Dialog>, order: seq<string>, k: string, now: int, store: StoreDialogCall)
    requires k in sessions
    ensures var r := StopSpec(sessions, k, now, store);
            && PlannedStores(sessions, order + [k], now)
               == PlannedStores(sessions, order, now) + (if r.stored.Some? then [r.stored.value] else [])
            && PlannedTails(sessions, order + [k], now, store)
               == PlannedTails(sessions, order, now, store) + (if r.tail.Some? then [r.tail.value] else [])
  {
    assert (order + [k])[..|order|] == order;
  }

  /** What the sweep has done when the keys outside `remaining` have been visited: the registry
      holds the survivors, `order` lists the stopped keys, and the store calls and tails are
      those planned for `order`. */
  ghost predicate SweepInv(start: map<string, Dialog>, remaining: set<string>, order: seq<string>, now: int,
                           store: StoreDialogCall, dialogs: map<string, Dialog>, calls: seq<Dialog>, tails: seq<Dialog>) {
    && remaining <= start.Keys
    && dialogs == Survivors(start, remaining, now)
    && SweepOrder(start, remaining, order, now)
    && calls == PlannedStores(start, order, now)
    && tails == PlannedTails(start, order, now, store)
  }

  /** Visiting a stale key stops it: the registry loses it, and its store call and tail are appended. */
  lemma SweepStopStep(start: map<string, Dialog>, remaining: set<string>, order: seq<string>, k: string, now: int,
                      store: StoreDialogCall, dialogs: map<string, Dialog>, calls: seq<Dialog>, tails: seq<Dialog>)
    requires SweepInv(start, remaining, order, now, store, dialogs, calls, tails)
    requires k in remaining && Stale(start[k], now)
    ensures k in dialogs && dialogs[k] == start[k]
    ensures var r := StopSpec(dialogs, k, now, store);
            SweepInv(start, remaining - {k}, order + [k], now, store, r.dialogs,
                     calls + (if r.stored.Some? then [r.stored.value] else []),
                     tails + (if r.tail.Some? then [r.tail.value] else []))
  {
    SurvivorsStep(start, remaining, k, now);
    SweepOrderStep(start, remaining, order, k, now);
    PlannedStep(start, order, k, now, store);
    StopLocal(start, dialogs, k, now, store);
  }

  /** Visiting a fresh key changes nothing but `remaining`. */
  lemma SweepSkipStep(start: map<string, Dialog>, remaining: set<string>, order: seq<string>, k: string, now: int,
                      store: StoreDialogCall, dialogs: map<string, Dialog>, calls: seq<Dialog>, tails: seq<Dialog>)
    requires SweepInv(start, remaining, order, now, store, dialogs, calls, tails)
    requires k in remaining && !Stale(start[k], now)
    ensures k in dialogs && dialogs[k] == start[k]
    ensures SweepInv(start, remaining - {k}, order, now, store, dialogs, calls, tails)
  {
    SurvivorsStep(start, remaining, k, now);
    SweepOrderStep(start, remaining, order, k, now);
  }

  /** A finished sweep has kept exactly the fresh sessions and stopped every stale one once. */
  lemma SweepDone(start: map<string, Dialog>, order: seq<string>, now: int,
                  store: StoreDialogCall, dialogs: map<string, Dialog>, calls: seq<Dialog>, tails: seq<Dialog>)
    requires SweepInv(start, {}, order, now, store, dialogs, calls, tails)
    ensures dialogs == map k | k in start && !Stale(start[k], now) :: start[k]
    ensures forall i :: 0 <= i < |order| ==> order[i] in start && Stale(start[order[i]], now)
    ensures forall k :: k in start && Stale(start[k], now) ==> k in order
    ensures forall i, j :: 0 <= i < j < |order| ==> order[i] != order[j]
    ensures (forall k :: k in start ==> WellFormedSession(k, start[k])) ==>
            forall k :: k in dialogs ==> WellFormedSession(k, dialogs[k])
  {
    SurvivorsWellFormed(start, {}, now);
  }

  /** Stop depends only on the user's own entry. */
  lemma StopLocal(a: map<string, Dialog>, b: map<string, Dialog>, k: string, now: int, store: StoreDialogCall)
    requires k in a && k in b && a[k] == b[k]
    ensures var ra := StopSpec(a, k, now, store);
            var rb := StopSpec(b, k, now, store);
            ra.id == rb.id && ra.err == rb.err && ra.stored == rb.stored && ra.tail == rb.tail
  {
  }

  // ---------------------------------------------------------------------------
  // Sessions as Talk builds them

  /** A session as Talk stores it: its own user id, a system message (the persona directive), then user/reply pairs;
      no reply is empty or flagged as a primer. */
  ghost predicate WellFormedSession(userID: string, session: Dialog) {
    && session.userID == userID
    && |session.messages| >= 3 && |session.messages| % 2 == 1
    && session.messages[0].role == SystemRole
    && (forall i :: 1 <= i < |session.messages| && i % 2 == 1 ==> session.messages[i].role == UserRole)
    && (forall i :: 1 <= i < |session.messages| ==> !session.messages[i].prefix && !Empty(session.messages[i]))
  }

  /** Every reply of the session (the messages after each user turn) is an assistant message. */
  ghost predicate AssistantReplies(session: Dialog) {
    forall i :: 1 <= i < |session.messages| && i % 2 == 0 ==> session.messages[i].role == AssistantRole
  }

  /** Stop of a well-formed session drops exactly the persona directive when every reply is an
      assistant message, so the session is persisted. */
  lemma WellFormedSessionPersists(userID: string, session: Dialog)
    requires WellFormedSession(userID, session)
    requires AssistantReplies(session)
    ensures WithoutSystem(session.messages) == session.messages[1..]
    ensures Persistable(session)
  {
    var msgs := session.messages;
    forall j | 1 <= j < |msgs|
      ensures Conversational(msgs[j])
    {
      if j % 2 == 1 {
        assert msgs[j].role == UserRole;
      } else {
        assert msgs[j].role == AssistantRole;
      }
    }
    DropLeadingSystem(msgs);
  }

  /** The sweep keeps only sessions it found, so it keeps them well formed. */
  lemma SurvivorsWellFormed(start: map<string, Dialog>, remaining: set<string>, now: int)
    ensures (forall k :: k in start ==> WellFormedSession(k, start[k])) ==>
            forall k :: k in Survivors(start, remaining, now) ==> WellFormedSession(k, Survivors(start, remaining, now)[k])
  {
  }

  /** Appending a user turn and a non-empty, unflagged reply keeps every session well formed. */
  lemma StoredTurnWellFormed(dialogs: map<string, Dialog>, userID: string, input: string, now: int, reply: Message)
    requires forall k :: k in dialogs ==> WellFormedSession(k, dialogs[k])
    requires !reply.prefix && !Empty(reply)
    ensures var turn := WithUserTurn(SessionFor(dialogs, userID, now), input, now);
            var after := dialogs[userID := turn.(messages := turn.messages + [reply])];
            forall k :: k in after ==> WellFormedSession(k, after[k])
  {
    var session := SessionFor(dialogs, userID, now);
    var turn := WithUserTurn(session, input, now);
    var d := turn.(messages := turn.messages + [reply]);
    assert d.messages == session.messages + [UserMessage(input), reply];
    forall i | 1 <= i < |d.messages| && i % 2 == 1
      ensures d.messages[i].role == UserRole
    {
      if i < |session.messages| {
        assert d.messages[i] == session.messages[i];
      }
    }
    assert WellFormedSession(userID, d);
  }

  // ---------------------------------------------------------------------------
  // The controller

  class Controller {
    /** The registry: user id to live session. */
    var dialogs: map<string, Dialog>
    /** Every dialog handed to the store, in call order. */
    ghost var storeCalls: seq<Dialog>

    /** Every live session is one Talk built for its key. */
    ghost predicate Valid()
      reads this
    {
      forall k :: k in dialogs ==> WellFormedSession(k, dialogs[k])
    }

    constructor ()
      ensures dialogs == map[] && storeCalls == [] && Valid()
    {
      dialogs := map[];
      storeCalls := [];
    }

    /** `controller.Talk`. */
    method Talk(userID: string, key: string, input: string, now: int, llm: ChatCompletion)
      returns (answer: string, panicked: bool)
      modifies this
      ensures TalkResult(dialogs, answer, panicked) == TalkSpec(old(dialogs), userID, key, input, now, llm)
      ensures storeCalls == old(storeCalls)
      ensures old(Valid()) ==> Valid()
    {
      ghost var wasValid := Valid();
      var dialog: Dialog;
      if userID in dialogs {
        dialog := dialogs[userID];
      } else {
        dialog := Dialog("", userID, [SystemMessage], now, 0, 0);
      }
      dialog := dialog.(messages := dialog.messages + [UserMessage(input)]);
      dialog := dialog.(updatedAt := now);
      assert dialog == WithUserTurn(SessionFor(dialogs, userID, now), input, now);

      var request := MistralRequest(MistralSmall, dialog.messages + [PrimerMessage]);
      var response := llm(key, request);
      if response.Err? {
        return "", false;
      }
      var stripped := WithoutChatPrefix(ResponseMessage(response.value));
      if stripped.None? {
        return "", true;
      }
      var msg := stripped.value;
      if Empty(msg) {
        return "", false;
      }
      if wasValid {
        StoredTurnWellFormed(dialogs, userID, input, now, msg);
      }
      dialog := dialog.(messages := dialog.messages + [msg]);
      dialogs := dialogs[userID := dialog];
      answer, panicked := msg.content, false;
    }

    /** `controller.Stop`; the returned `tail` is the dialog the detached translation step runs on. */
    method Stop(userID: string, now: int, store: StoreDialogCall)
      returns (id: string, err: Option<string>, tail: Option<Dialog>)
      modifies this
      ensures var r := StopSpec(old(dialogs), userID, now, store);
              && dialogs == r.dialogs && id == r.id && err == r.err && tail == r.tail
              && storeCalls == old(storeCalls) + (if r.stored.Some? then [r.stored.value] else [])
      ensures old(Valid()) ==> Valid()
      ensures old(Valid()) && userID in old(dialogs) && AssistantReplies(old(dialogs)[userID]) ==>
                var session := old(dialogs)[userID];
                storeCalls == old(storeCalls) + [session.(messages := session.messages[1..],
                                                           durationS := ElapsedSeconds(session.startTime, now))]
    {
      if userID !in dialogs {
        return "", None, None;
      }
      if Valid() && AssistantReplies(dialogs[userID]) {
        WellFormedSessionPersists(userID, dialogs[userID]);
      }
      var dialog := dialogs[userID];
      dialogs := dialogs - {userID};
      dialog := dialog.(messages := WithoutSystem(dialog.messages));
      if |dialog.messages| < 2 {
        return "", None, None;
      }
      dialog := dialog.(durationS := ElapsedSeconds(dialog.startTime, now));
      storeCalls := storeCalls + [dialog];
      var reply := store(dialog);
      id, err, tail := reply.dialog.id, reply.err, Some(reply.dialog);
    }

    /** `controller.CleanUp`: stop every session idle past the timeout at the single `now`.
        `order` is the (unspecified) order in which the sweep stopped them. */
    method CleanUp(now: int, store: StoreDialogCall) returns (tails: seq<Dialog>, ghost order: seq<string>)
      modifies this
      ensures dialogs == map k | k in old(dialogs) && !Stale(old(dialogs)[k], now) :: old(dialogs)[k]
      ensures forall i :: 0 <= i < |order| ==> order[i] in old(dialogs) && Stale(old(dialogs)[order[i]], now)
      ensures forall k :: k in old(dialogs) && Stale(old(dialogs)[k], now) ==> k in order
      ensures forall i, j :: 0 <= i < j < |order| ==> order[i] != order[j]
      ensures storeCalls == old(storeCalls) + PlannedStores(old(dialogs), order, now)
      ensures tails == PlannedTails(old(dialogs), order, now, store)
      ensures old(Valid()) ==> Valid()
    {
      ghost var start := dialogs;
      ghost var calls: seq<Dialog> := [];
      var remaining := dialogs.Keys;
      tails, order := [], [];
      assert dialogs == Survivors(start, remaining, now);
      while remaining != {}
        invariant SweepInv(start, remaining, order, now, store, dialogs, calls, tails)
        invariant storeCalls == old(storeCalls) + calls
        decreases remaining
      {
        var k :| k in remaining;
        var session := dialogs[k];
        if Stale(session, now) {
          SweepStopStep(start, remaining, order, k, now, store, dialogs, calls, tails);
          ghost var r := StopSpec(dialogs, k, now, store);
          ghost var extra := if r.stored.Some? then [r.stored.value] else [];
          var id, err, tail := Stop(k, now, store);
          if tail.Some? {
            tails := tails + [tail.value];
          }
          assert storeCalls == old(storeCalls) + (calls + extra);
          calls := calls + extra;
          order := order + [k];
        } else {
          SweepSkipStep(start, remaining, order, k, now, store, dialogs, calls, tails);
        }
        remaining := remaining - {k};
      }
      SweepDone(start, order, now, store, dialogs, calls, tails);
    }
  }
}
