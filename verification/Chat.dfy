/**
 Chat sessions and turn streams: who owns the turn in flight, and when a turn enters the transcript.
 */
module Chat {
  import opened Accumulator
  import opened Llm
  import opened Storage
  import opened Strings
  import opened Wrappers

  /** What the provider's stream yields on one call. */
  datatype Upstream = Item(event: Event) | Broken(cause: Cause) {
    predicate IsCompletion() {
      Item? && event.Completed?
    }
  }

  /** `replaceFromIndex`: how many messages a turn keeps. */
  function ReplaceFromIndex(messages: seq<Message>, replaceFrom: Option<int>): Result<nat, Cause> {
    match replaceFrom
    case None => Success(|messages|)
    case Some(keep) =>
      if keep < 0 || keep > |messages| then Failure(InvalidReplaceFrom)
      else if keep < |messages| && messages[keep].role != User then Failure(InvalidReplaceFrom)
      else Success(keep)
  }

  lemma KeepInRange(messages: seq<Message>, replaceFrom: Option<int>)
    ensures ReplaceFromIndex(messages, replaceFrom).Success? ==> ReplaceFromIndex(messages, replaceFrom).value <= |messages|
  {
  }

  /** The transcript after a turn was appended, or put in the place of everything from `keep` on. */
  function Extended(messages: seq<Message>, replaceTail: bool, keep: nat, user: Message, assistant: Message): seq<Message>
    requires replaceTail ==> keep <= |messages|
  {
    (if replaceTail then messages[..keep] else messages) + [user, assistant]
  }

  /** The stored conversation after such a turn, if there is a store. */
  function Stored(table: Option<Table>, conversation: int, replaceTail: bool, keep: nat, user: Message, assistant: Message): Option<Table> {
    match table
    case None => None
    case Some(rows) => Some(Committed(rows, conversation, if replaceTail then Some(keep) else None, user, assistant))
  }

  /** In an alternating transcript of whole turns, an index is accepted exactly when it is even and in range. */
  lemma ReplaceFromAlternating(messages: seq<Message>, keep: int)
    requires Alternates(messages) && |messages| % 2 == 0
    ensures ReplaceFromIndex(messages, Some(keep)).Success? <==> 0 <= keep <= |messages| && keep % 2 == 0
    ensures ReplaceFromIndex(messages, None) == Success(|messages|)
  {
    if 0 <= keep < |messages| {
      assert messages[keep].role == if keep % 2 == 0 then User else Assistant;
    }
  }

  /** Committing at an accepted index keeps the transcript alternating and whole. */
  lemma ExtendedAlternates(messages: seq<Message>, replaceFrom: Option<int>, user: Message, assistant: Message)
    requires Alternates(messages) && |messages| % 2 == 0
    requires ReplaceFromIndex(messages, replaceFrom).Success?
    requires user.role == User && assistant.role == Assistant
    ensures var next := Extended(messages, replaceFrom.Some?, ReplaceFromIndex(messages, replaceFrom).value, user, assistant);
            Alternates(next) && |next| % 2 == 0
  {
    if replaceFrom.Some? {
      ReplaceFromAlternating(messages, replaceFrom.value);
    }
  }

  /** The turn counters. */
  class Meter {
    var started: nat
    var completed: nat
    var cancelled: nat
    var failed: nat

    constructor ()
      ensures started == completed == cancelled == failed == 0
    {
      started, completed, cancelled, failed := 0, 0, 0, 0;
    }
  }

  class Session {
    const store: SQLite?
    const conversation: int
    var messages: seq<Message>
    var inFlight: bool

    ghost function Footprint(): set<object> {
      if store == null then {this} else {this, store}
    }

    ghost function TableView(): Option<Table>
      reads Footprint()
    {
      if store == null then None else Some(store.table)
    }

    /** With a store, the transcript in memory is the one in the table. */
    ghost predicate Valid()
      reads Footprint()
    {
      store != null ==> conversation > 0 && Holds(store.table, conversation, messages)
    }

    constructor (store: SQLite?, conversation: int, messages: seq<Message>)
      ensures this.store == store && this.conversation == conversation && this.messages == messages && !inFlight
      ensures (store != null ==> conversation > 0 && Holds(store.table, conversation, messages)) ==> Valid()
    {
      this.store, this.conversation, this.messages, this.inFlight := store, conversation, messages, false;
    }

    /** `Service.NewPersistedSession`: load the history, whatever its numbers, or report why it cannot be loaded. */
    static method Open(store: SQLite?, conversation: int, fault: Option<nat>) returns (r: Result<Session, StoreError>)
      ensures r.Failure? <==> store != null && (conversation <= 0 || (fault.Some? && fault.value <= |ReadBack(store.table, conversation)| + 1))
      ensures r.Success? ==>
                && fresh(r.value) && r.value.store == store && !r.value.inFlight
                && r.value.messages == if store == null then [] else ReadBack(store.table, conversation)
      ensures r.Success? ==> forall history | store != null ==> Holds(store.table, conversation, history) ::
                r.value.Valid() && (store != null ==> r.value.messages == history)
    {
      if store == null {
        var plain := new Session(null, 0, []);
        return Success(plain);
      }
      var loaded := store.Messages(conversation, fault);
      if loaded.Failure? {
        return Failure(loaded.error);
      }
      var session := new Session(store, conversation, loaded.value);
      forall history | Holds(store.table, conversation, history)
        ensures session.Valid() && session.messages == history
      {
        HoldsReadsBack(store.table, conversation, history);
      }
      return Success(session);
    }

    /** Whether a commit hits a failing statement. */
    predicate WriteFails(replaceTail: bool, fault: Option<nat>) {
      store != null && fault.Some? && fault.value < if replaceTail then 6 else 5
    }

    method AppendOrReplaceTail(replaceTail: bool, keep: nat, user: Message, assistant: Message, fault: Option<nat>)
      returns (err: Option<Cause>)
      requires Valid() && (replaceTail ==> keep <= |messages|)
      requires user.role == User && user.completedAt == None && assistant.role == Assistant
      modifies Footprint()
      ensures Valid()
      ensures err.Some? <==> WriteFails(replaceTail, fault)
      ensures err.Some? ==> err == Some(WriteFailed) && messages == old(messages) && inFlight == old(inFlight)
      ensures err.Some? ==> TableView() == old(TableView())
      ensures err == None ==> messages == Extended(old(messages), replaceTail, keep, user, assistant) && !inFlight
      ensures err == None ==> TableView() == Stored(old(TableView()), conversation, replaceTail, keep, user, assistant)
    {
      if store != null {
        HoldsCount(store.table, conversation, messages);
        CommittedHolds(store.table, conversation, messages, if replaceTail then Some(keep) else None, user, assistant);
        var written;
        if replaceTail {
          written := store.ReplaceTailAndAppendTurn(conversation, keep, user, assistant, fault);
        } else {
          written := store.AppendTurn(conversation, user, assistant, fault);
        }
        if written.Failure? {
          return Some(WriteFailed);
        }
      }
      var nextMessages := messages;
      if replaceTail {
        nextMessages := messages[..keep];
      }
      nextMessages := nextMessages + [user, assistant];
      messages := nextMessages;
      inFlight := false;
      return None;
    }

    method ReleaseTurn()
      modifies this
      ensures messages == old(messages) && !inFlight
    {
      inFlight := false;
    }

    method ValidateReplaceFrom(replaceFrom: Option<int>) returns (err: Option<Cause>)
      ensures err == None <==> ReplaceFromIndex(messages, replaceFrom).Success?
    {
      match ReplaceFromIndex(messages, replaceFrom) {
        case Success(_) => err := None;
        case Failure(e) => err := Some(e);
      }
    }

    /**
     Opens a turn. A refused or failed `Send` leaves the session as it was; a successful one owns the
     turn and has sent the kept messages and the new prompt, nothing else.
     */
    method Send(meter: Meter, prompt: string, replaceFrom: Option<int>, openFailure: Option<Cause>)
      returns (r: Result<TurnStream, Cause>, sent: seq<Message>)
      modifies this, meter
      ensures messages == old(messages)
      ensures r.Failure? ==> inFlight == old(inFlight)
      ensures r.Success? <==> TrimSpace(prompt) != "" && !old(inFlight)
                              && ReplaceFromIndex(messages, replaceFrom).Success? && openFailure == None
      ensures r.Failure? ==> r.error == if TrimSpace(prompt) == "" then EmptyPrompt
                                        else if old(inFlight) then TurnInProgress
                                        else if ReplaceFromIndex(messages, replaceFrom).Failure? then ReplaceFromIndex(messages, replaceFrom).error
                                        else openFailure.value
      ensures r.Success? ==> fresh(r.value) && inFlight && r.value.session == this && r.value.meter == meter
      ensures r.Success? ==> r.value.Opened(TrimSpace(prompt), replaceFrom)
      ensures r.Success? ==> sent == messages[..r.value.keepMessages] + [r.value.userMessage]
      ensures meter.started == old(meter.started) +
              if TrimSpace(prompt) != "" && !old(inFlight) && ReplaceFromIndex(messages, replaceFrom).Success? then 1 else 0
      ensures meter.failed - old(meter.failed) + (if r.Success? then 1 else 0) == meter.started - old(meter.started)
      ensures meter.completed == old(meter.completed) && meter.cancelled == old(meter.cancelled)
    {
      sent := [];
      var trimmed := TrimSpace(prompt);
      if trimmed == "" {
        return Failure(EmptyPrompt), sent;
      }
      var userMessage := TextMessage(User, trimmed);
      if inFlight {
        return Failure(TurnInProgress), sent;
      }
      var keep := ReplaceFromIndex(messages, replaceFrom);
      if keep.Failure? {
        return Failure(keep.error), sent;
      }
      sent := messages[..keep.value] + [userMessage];
      inFlight := true;
      meter.started := meter.started + 1;
      if openFailure.Some? {
        ReleaseTurn();
        meter.failed := meter.failed + 1;
        return Failure(openFailure.value), sent;
      }
      var stream := new TurnStream(this, meter, userMessage, keep.value, replaceFrom.Some?);
      return Success(stream), sent;
    }

    /** Commits a prompt that was stopped before its stream opened, with an empty answer. */
    method CommitStopped(prompt: string, replaceFrom: Option<int>, fault: Option<nat>) returns (err: Option<Cause>)
      requires Valid()
      modifies Footprint()
      ensures Valid() && inFlight == (old(inFlight) && err.Some?)
      ensures err == None <==> TrimSpace(prompt) != "" && ReplaceFromIndex(old(messages), replaceFrom).Success?
                               && !WriteFails(replaceFrom.Some?, fault)
      ensures err.Some? ==> messages == old(messages) && TableView() == old(TableView())
      ensures err == None ==>
                var keep, user, assistant := ReplaceFromIndex(old(messages), replaceFrom).value, TextMessage(User, TrimSpace(prompt)), Message(Assistant, [], None);
                && messages == Extended(old(messages), replaceFrom.Some?, keep, user, assistant)
                && TableView() == Stored(old(TableView()), conversation, replaceFrom.Some?, keep, user, assistant)
    {
      var trimmed := TrimSpace(prompt);
      if trimmed == "" {
        return Some(EmptyPrompt);
      }
      var keep := ReplaceFromIndex(messages, replaceFrom);
      if keep.Failure? {
        return Some(keep.error);
      }
      err := AppendOrReplaceTail(replaceFrom.Some?, keep.value, TextMessage(User, trimmed), Message(Assistant, [], None), fault);
    }
  }

  class TurnStream {
    const session: Session
    const meter: Meter
    const userMessage: Message
    const keepMessages: nat
    const replaceTail: bool
    var assistantParts: seq<Part>
    var completedAt: Option<nat>
    var completed: bool
    var finalized: bool
    var recorded: bool

    ghost function Footprint(): set<object> {
      {this, meter} + session.Footprint()
    }

    /** The commit this stream may still make is well defined: its index is within the transcript. */
    ghost predicate Valid()
      reads Footprint()
    {
      && session.Valid()
      && userMessage.role == User && userMessage.completedAt == None
      && (!finalized && replaceTail ==> keepMessages <= |session.messages|)
    }

    /** A stream fresh from `Send`. */
    ghost predicate Opened(prompt: string, replaceFrom: Option<int>)
      reads this, session
    {
      && userMessage == TextMessage(User, prompt)
      && ReplaceFromIndex(session.messages, replaceFrom) == Success(keepMessages)
      && replaceTail == replaceFrom.Some?
      && assistantParts == [] && completedAt == None && !completed && !finalized && !recorded
    }

    ghost predicate SameCounts(s: nat, o: nat, c: nat, f: nat)
      reads meter
    {
      meter.started == s && meter.completed == o && meter.cancelled == c && meter.failed == f
    }

    constructor (session: Session, meter: Meter, userMessage: Message, keepMessages: nat, replaceTail: bool)
      ensures this.session == session && this.meter == meter && this.userMessage == userMessage
      ensures this.keepMessages == keepMessages && this.replaceTail == replaceTail
      ensures assistantParts == [] && completedAt == None && !completed && !finalized && !recorded
    {
      this.session, this.meter, this.userMessage := session, meter, userMessage;
      this.keepMessages, this.replaceTail := keepMessages, replaceTail;
      assistantParts, completedAt, completed, finalized, recorded := [], None, false, false, false;
    }

    method AppendDelta(kind: PartType, delta: string)
      modifies this`assistantParts
      ensures assistantParts == Accumulator.AppendDelta(old(assistantParts), kind, delta)
      ensures Appended(old(assistantParts), kind, delta, assistantParts)
    {
      AppendedExactly(assistantParts, kind, delta, Accumulator.AppendDelta(assistantParts, kind, delta));
      if delta == "" {
        return;
      }
      var lastIndex := |assistantParts| - 1;
      if lastIndex >= 0 && assistantParts[lastIndex].kind == kind {
        assistantParts := assistantParts[lastIndex := assistantParts[lastIndex].(text := assistantParts[lastIndex].text + delta)];
        return;
      }
      assistantParts := assistantParts + [PlainPart(kind, delta)];
    }

    method MergeCompletedPart(part: Part)
      modifies this`assistantParts
      ensures assistantParts == MergeCompleted(old(assistantParts), part) && Merged(old(assistantParts), part, assistantParts)
    {
      MergedExactly(assistantParts, part, MergeCompleted(assistantParts, part));
      hide Merged;
      if part.kind == Untyped {
        return;
      }
      if part.kind == Reasoning {
        for i := |assistantParts| downto 0
          invariant assistantParts == old(assistantParts)
          invariant forall j | i <= j < |assistantParts| :: assistantParts[j].kind != Reasoning
        {
          if assistantParts[i].kind != Reasoning {
            continue;
          }
          var merged := assistantParts[i];
          if part.text != "" { merged := merged.(text := part.text); }
          if part.id != "" { merged := merged.(id := part.id); }
          if part.summary != [] { merged := merged.(summary := part.summary); }
          if part.encrypted != "" { merged := merged.(encrypted := part.encrypted); }
          assistantParts := assistantParts[i := merged];
          return;
        }
      }
      if part.kind == Text {
        var lastIndex := |assistantParts| - 1;
        if lastIndex >= 0 && assistantParts[lastIndex].kind == Text && part.text != "" && assistantParts[lastIndex].text <= part.text {
          assistantParts := assistantParts[lastIndex := assistantParts[lastIndex].(text := part.text)];
          return;
        }
      }
      assistantParts := assistantParts + [part];
    }

    /** What a successful commit adds to the transcript. */
    ghost function Assistant(now: nat): Message
      reads this
    {
      Message(Role.Assistant, assistantParts, if !completed then None else if completedAt == None then Some(now) else completedAt)
    }

    /** The one place a stream writes the transcript. */
    method Finalize(allowIncomplete: bool, fault: Option<nat>, now: nat) returns (err: Option<Cause>)
      requires Valid()
      modifies this`completedAt, this`finalized, session.Footprint()
      ensures Valid()
      ensures var idle := (!completed && !allowIncomplete) || old(finalized);
              && (idle ==> err == None && finalized == old(finalized) && session.messages == old(session.messages)
                           && session.inFlight == old(session.inFlight) && session.TableView() == old(session.TableView()))
              && (!idle ==> (err.Some? <==> session.WriteFails(replaceTail, fault)))
              && (!idle && err == None ==>
                    && finalized && !session.inFlight
                    && session.messages == Extended(old(session.messages), replaceTail, keepMessages, userMessage, old(Assistant(now)))
                    && session.TableView() == Stored(old(session.TableView()), session.conversation, replaceTail, keepMessages, userMessage, old(Assistant(now))))
      ensures err.Some? ==> err == Some(WriteFailed) && !finalized && session.messages == old(session.messages)
                            && session.inFlight == old(session.inFlight) && session.TableView() == old(session.TableView())
      ensures completedAt == if completed && !old(finalized) && old(completedAt) == None then Some(now)
                             else old(completedAt)
    {
      if (!completed && !allowIncomplete) || finalized {
        return None;
      }
      if completed && completedAt == None {
        completedAt := Some(now);
      }
      var assistant := Message(Role.Assistant, assistantParts, if completed then completedAt else None);
      err := session.AppendOrReplaceTail(replaceTail, keepMessages, userMessage, assistant, fault);
      if err.Some? {
        return err;
      }
      finalized := true;
    }

    method CommitPartial(fault: Option<nat>, now: nat) returns (err: Option<Cause>)
      requires Valid()
      modifies this`completedAt, this`finalized, session.Footprint()
      ensures Valid()
      ensures old(finalized) ==> err == None && finalized && session.messages == old(session.messages) && completedAt == old(completedAt)
                                 && session.inFlight == old(session.inFlight) && session.TableView() == old(session.TableView())
      ensures !completed ==> completedAt == old(completedAt)
      ensures !old(finalized) ==> (err.Some? <==> session.WriteFails(replaceTail, fault))
      ensures !old(finalized) && err == None ==>
                finalized && !session.inFlight
                && session.messages == Extended(old(session.messages), replaceTail, keepMessages, userMessage, old(Assistant(now)))
                && session.TableView() == Stored(old(session.TableView()), session.conversation, replaceTail, keepMessages, userMessage, old(Assistant(now)))
      ensures err.Some? ==> err == Some(WriteFailed) && !finalized && session.messages == old(session.messages)
                            && session.inFlight == old(session.inFlight) && session.TableView() == old(session.TableView())
    {
      err := Finalize(true, fault, now);
    }

    /** Gives the turn up; only a stream that still owns its turn touches the session. */
    method Abort()
      requires Valid()
      modifies this`finalized, session`inFlight
      ensures Valid() && finalized
      ensures session.inFlight == (old(session.inFlight) && old(finalized))
    {
      if finalized {
        return;
      }
      finalized := true;
      session.inFlight := false;
    }

    method RecordCompleted()
      modifies this`recorded, meter
      ensures recorded
      ensures SameCounts(old(meter.started), old(meter.completed) + (if old(recorded) then 0 else 1), old(meter.cancelled), old(meter.failed))
    {
      if recorded {
        return;
      }
      recorded := true;
      meter.completed := meter.completed + 1;
    }

    method RecordCancelled()
      modifies this`recorded, meter
      ensures recorded
      ensures SameCounts(old(meter.started), old(meter.completed), old(meter.cancelled) + (if old(recorded) then 0 else 1), old(meter.failed))
    {
      if recorded {
        return;
      }
      recorded := true;
      meter.cancelled := meter.cancelled + 1;
    }

    method RecordFailed()
      modifies this`recorded, meter
      ensures recorded
      ensures SameCounts(old(meter.started), old(meter.completed), old(meter.cancelled), old(meter.failed) + (if old(recorded) then 0 else 1))
    {
      if recorded {
        return;
      }
      recorded := true;
      meter.failed := meter.failed + 1;
    }

    method RecordError(cause: Cause)
      modifies this`recorded, meter
      ensures recorded
      ensures var once := if old(recorded) then 0 else 1;
              SameCounts(old(meter.started), old(meter.completed),
                         old(meter.cancelled) + (if cause == Canceled then once else 0),
                         old(meter.failed) + (if cause == Canceled then 0 else once))
    {
      if cause == Canceled {
        RecordCancelled();
        return;
      }
      RecordFailed();
    }

    /** The completion branch of `Next`: commit, or give the turn up when the write fails. A finalized stream commits nothing. */
    method CompleteTurn(fault: Option<nat>, now: nat) returns (err: Option<Cause>)
      requires Valid()
      modifies Footprint()
      ensures Valid() && completed && finalized && recorded
      ensures session.inFlight == (old(session.inFlight) && old(finalized))
      ensures assistantParts == old(assistantParts)
      ensures err.Some? <==> !old(finalized) && session.WriteFails(replaceTail, fault)
      ensures err.Some? ==> err == Some(WriteFailed)
      ensures completedAt == if old(finalized) || old(completedAt).Some? then old(completedAt) else Some(now)
      ensures err.Some? || old(finalized) ==> session.messages == old(session.messages) && session.TableView() == old(session.TableView())
      ensures err == None && !old(finalized) ==>
                var answer := Message(Role.Assistant, assistantParts, completedAt);
                && session.messages == Extended(old(session.messages), replaceTail, keepMessages, userMessage, answer)
                && session.TableView() == Stored(old(session.TableView()), session.conversation, replaceTail, keepMessages, userMessage, answer)
      ensures var once := if old(recorded) then 0 else 1;
              SameCounts(old(meter.started), old(meter.completed) + (if err == None then once else 0), old(meter.cancelled),
                         old(meter.failed) + (if err == None then 0 else once))
    {
      hide Holds, Extended, Stored;
      ghost var answer := Message(Role.Assistant, assistantParts, if completedAt == None then Some(now) else completedAt);
      ghost var next := if finalized then session.messages else Extended(session.messages, replaceTail, keepMessages, userMessage, answer);
      ghost var stored := Stored(session.TableView(), session.conversation, replaceTail, keepMessages, userMessage, answer);
      completed := true;
      assert Assistant(now) == answer;
      err := Finalize(false, fault, now);
      assert err == None && !old(finalized) ==> session.messages == next && session.TableView() == stored;
      if err.Some? {
        RecordError(err.value);
        Abort();
        return err;
      }
      RecordCompleted();
    }

    /**
     One upstream result. A delivered event is the upstream's own, and the parts grow by exactly that
     event. The transcript changes only by a completed turn being committed whole; every failure except
     cancellation gives the turn up at once, and cancellation leaves it open for a partial commit.
     */
    method Next(upstream: Upstream, fault: Option<nat>, now: nat) returns (r: Result<Event, Cause>)
      requires Valid()
      modifies Footprint()
      ensures Valid()
      ensures assistantParts == if upstream.Item? then Absorb(old(assistantParts), upstream.event) else old(assistantParts)
      ensures if upstream.Item? then Grown(old(assistantParts), upstream.event, assistantParts) else assistantParts == old(assistantParts)
      ensures r.Success? ==> upstream == Item(r.value)
      ensures r.Failure? <==> || upstream.Broken?
                              || (upstream.event.ErrorEvent? && upstream.event.cause.Some?)
                              || (upstream.event.Completed? && !old(finalized) && session.WriteFails(replaceTail, fault))
      ensures r.Failure? ==> r.error == if upstream.Broken? then upstream.cause
                                        else if upstream.event.ErrorEvent? then upstream.event.cause.value
                                        else WriteFailed
      ensures r.Failure? ==> recorded && finalized == (old(finalized) || upstream != Broken(Canceled))
      ensures r.Failure? ==> session.inFlight == (old(session.inFlight) && (old(finalized) || upstream == Broken(Canceled)))
      ensures completed == (old(completed) || upstream.IsCompletion())
      ensures r.Success? ==>
                if upstream.IsCompletion() then finalized && recorded && session.inFlight == (old(session.inFlight) && old(finalized))
                else finalized == old(finalized) && recorded == old(recorded) && session.inFlight == old(session.inFlight)
      ensures r.Success? && upstream.IsCompletion() && !old(finalized) ==>
                var answer := Message(Role.Assistant, old(assistantParts), completedAt);
                && session.messages == Extended(old(session.messages), replaceTail, keepMessages, userMessage, answer)
                && session.TableView() == Stored(old(session.TableView()), session.conversation, replaceTail, keepMessages, userMessage, answer)
      ensures r.Failure? || !upstream.IsCompletion() || old(finalized) ==>
                session.messages == old(session.messages) && session.TableView() == old(session.TableView())
      ensures completedAt == if upstream.IsCompletion() && !old(finalized) && old(completedAt) == None then Some(now) else old(completedAt)
      ensures var once := if old(recorded) then 0 else 1;
              SameCounts(old(meter.started),
                         old(meter.completed) + (if r.Success? && upstream.IsCompletion() then once else 0),
                         old(meter.cancelled) + (if upstream == Broken(Canceled) then once else 0),
                         old(meter.failed) + (if r.Failure? && upstream != Broken(Canceled) then once else 0))
    {
      hide Holds, Extended, Stored, Grown, Absorb, Appended, Merged;
      if upstream.Item? {
        GrownExactly(assistantParts, upstream.event, Absorb(assistantParts, upstream.event));
        AbsorbCases(assistantParts, upstream.event);
      }
      if upstream.Broken? {
        RecordError(upstream.cause);
        if upstream.cause != Canceled {
          Abort();
        }
        return Failure(upstream.cause);
      }
      var event := upstream.event;
      match event {
        case ReasoningDelta(delta) =>
          AppendDelta(Reasoning, delta);
        case TextDelta(delta) =>
          AppendDelta(Text, delta);
        case OutputItemDone(part) =>
          MergeCompletedPart(part);
        case Completed(_) =>
          var err := CompleteTurn(fault, now);
          if err.Some? {
            return Failure(err.value);
          }
        case ErrorEvent(cause) =>
          if cause.Some? {
            RecordFailed();
            Abort();
            return Failure(cause.value);
          }
        case Unrecognized =>
      }
      return Success(event);
    }

    /** Releases whatever is still owned; a stream that finished its turn closes without touching the session. */
    method Close()
      requires Valid() && (completed ==> recorded)
      modifies Footprint()
      ensures Valid() && finalized && recorded
      ensures session.messages == old(session.messages) && session.TableView() == old(session.TableView())
      ensures session.inFlight == (old(session.inFlight) && old(finalized))
      ensures assistantParts == old(assistantParts) && completedAt == old(completedAt) && completed == old(completed)
      ensures SameCounts(old(meter.started), old(meter.completed), old(meter.cancelled) + (if old(recorded) then 0 else 1), old(meter.failed))
    {
      if !completed {
        RecordCancelled();
      }
      Abort();
    }
  }
}
