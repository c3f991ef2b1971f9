/**
 * The per-user chat history and the decision skeleton of one incoming message
 * (app.py `chat_sessions`, `_trim_history`, `clear`, `handle_message`).
 */
module Session {
  import opened Wrappers
  import opened Text
  import opened Crisis
  import opened Cooldown
  import opened Dispatcher
  import opened Stress

  /** `HISTORY_PAIRS_TO_KEEP`. */
  const HISTORY_PAIRS_TO_KEEP: nat := 12
  /** `max_msgs` in `_trim_history`. */
  const MAX_MESSAGES: nat := 2 * HISTORY_PAIRS_TO_KEEP
  /** The stress level from which the breathing-exercise button is attached. */
  const BUTTON_LEVEL: int := 3
  /** The text that replaces a blank reply. */
  const DEFAULT_REPLY: string := "I'm here for you. Could you share more?"

  datatype Role = User | Assistant
  datatype ChatMessage = ChatMessage(role: Role, content: string)
  type History = seq<ChatMessage>

  /** `_trim_history`: the newest `MAX_MESSAGES` entries, oldest first. */
  function TrimHistory(h: History): (r: History)
    ensures |r| == if |h| <= MAX_MESSAGES then |h| else MAX_MESSAGES
  {
    if |h| <= MAX_MESSAGES then h else h[|h| - MAX_MESSAGES..]
  }

  /** A trimmed history is the newest part of the history it came from:
      all of it while it fits, otherwise exactly its last `MAX_MESSAGES`
      entries, oldest first. */
  lemma TrimIsSuffix(h: History)
    ensures var r := TrimHistory(h);
      && (|h| <= MAX_MESSAGES ==> r == h)
      && r == h[|h| - |r|..]
  {
  }

  /** Dropping `i` entries and then `j` more drops `i + j`. */
  lemma DropDrop(s: History, i: nat, j: nat)
    requires i + j <= |s|
    ensures s[i..][j..] == s[i + j..]
  {
  }

  /** Dropping from the front commutes with appending at the back. */
  lemma DropAppend(a: History, b: History, k: nat)
    requires k <= |a|
    ensures a[k..] + b == (a + b)[k..]
  {
  }

  /** Trimming early loses nothing that trimming late would keep: trimming,
      appending and trimming again gives the newest entries of the whole
      sequence. */
  lemma TrimAbsorbs(a: History, b: History)
    ensures TrimHistory(TrimHistory(a) + b) == TrimHistory(a + b)
  {
    if |a| > MAX_MESSAGES {
      var k := |a| - MAX_MESSAGES;
      var c := a + b;
      calc {
        TrimHistory(TrimHistory(a) + b);
        TrimHistory(a[k..] + b);
        { DropAppend(a, b, k); }
        TrimHistory(c[k..]);
        { assert |c[k..]| == MAX_MESSAGES + |b|; }
        c[k..][|b|..];
        { DropDrop(c, k, |b|); }
        c[k + |b|..];
        { assert |c| == k + |b| + MAX_MESSAGES; }
        TrimHistory(c);
      }
    } else {
      assert TrimHistory(a) == a;
    }
  }

  /** A user turn and an assistant turn stored one after the other, each
      followed by a trim, leave the newest entries of both appended. */
  lemma TrimPair(h: History, u: ChatMessage, a: ChatMessage)
    ensures TrimHistory(TrimHistory(h + [u]) + [a]) == TrimHistory(h + [u, a])
  {
    TrimAbsorbs(h + [u], [a]);
    assert h + [u] + [a] == h + [u, a];
  }

  /** The history after appending each of `ms` in turn and trimming after each. */
  function AppendEach(h: History, ms: seq<ChatMessage>): History
    decreases |ms|
  {
    if ms == [] then h else AppendEach(TrimHistory(h + [ms[0]]), ms[1..])
  }

  /** However many messages arrive, a trimmed history holds exactly the
      newest `MAX_MESSAGES` of all of them, oldest first. */
  lemma {:induction false} AppendEachKeepsNewest(h: History, ms: seq<ChatMessage>)
    requires |h| <= MAX_MESSAGES
    ensures AppendEach(h, ms) == TrimHistory(h + ms)
    decreases |ms|
  {
    if ms == [] {
      assert h + ms == h;
    } else {
      var h' := TrimHistory(h + [ms[0]]);
      calc {
        AppendEach(h, ms);
        AppendEach(h', ms[1..]);
        { AppendEachKeepsNewest(h', ms[1..]); }
        TrimHistory(h' + ms[1..]);
        { TrimAbsorbs(h + [ms[0]], ms[1..]); }
        TrimHistory(h + [ms[0]] + ms[1..]);
        { assert h + [ms[0]] + ms[1..] == h + ms; }
        TrimHistory(h + ms);
      }
    }
  }

  lemma DefaultReplyNotBlank()
    ensures !IsBlank(DEFAULT_REPLY)
  {
    BlankIffAllSpace(DEFAULT_REPLY);
    assert DEFAULT_REPLY[0] == 'I';
  }

  /** `(reply or "").strip() or DEFAULT_REPLY`. */
  function ReplyText(reply: string): (r: string)
    ensures !IsBlank(r)
    ensures !IsBlank(reply) ==> r == Strip(reply)
    ensures IsBlank(reply) ==> r == DEFAULT_REPLY
  {
    StripIdempotent(reply);
    DefaultReplyNotBlank();
    if IsBlank(reply) then DEFAULT_REPLY else Strip(reply)
  }

  /** What the user is sent. */
  datatype Answer =
    | KeyMissingAnswer                               // no API key: nothing else happens
    | CrisisAnswer                                   // helpline text with the breathing button
    | ReplyAnswer(text: string, breathingButton: bool)
    | ErrorAnswer                                    // "Sorry, something went wrong..."

  /** The answer together with the session map and tracker state it leaves. */
  datatype Turn = Turn(answer: Answer, sessions: map<int, History>, states: States)

  /** The sessions with `userId`'s entry created empty if absent (app.py:247-248). */
  function Opened(sessions: map<int, History>, userId: int): map<int, History> {
    if userId in sessions then sessions else sessions[userId := []]
  }

  /** One run of `handle_message`. */
  function Process(sessions: map<int, History>, states: States, hasKey: bool, priority: seq<string>,
                   userId: int, text: Option<string>, ratingProbes: seq<Probe>, replyProbes: seq<Probe>): Turn
    requires |ratingProbes| == |priority| && |replyProbes| == |priority|
  {
    if !hasKey then Turn(KeyMissingAnswer, sessions, states)
    else if IsCrisis(Some(text.GetOr(""))) then Turn(CrisisAnswer, Opened(sessions, userId), states)
    else Converse(Opened(sessions, userId), states, priority, userId, text.GetOr(""), ratingProbes, replyProbes)
  }

  /** The non-crisis path: the user's message is appended and trimmed, then
      the rating and reply runs, issued together by the source, are taken one
      after the other against the same tracker, rating first. */
  function Converse(sessions: map<int, History>, states: States, priority: seq<string>,
                    userId: int, userText: string, ratingProbes: seq<Probe>, replyProbes: seq<Probe>): Turn
    requires |ratingProbes| == |priority| && |replyProbes| == |priority|
    requires userId in sessions
  {
    var history := TrimHistory(sessions[userId] + [ChatMessage(User, userText)]);
    var rating := Dispatch(true, priority, ratingProbes, states);
    var replying := Dispatch(true, priority, replyProbes, rating.1);
    Conclude(sessions, userId, history, rating.0, replying.0, replying.1)
  }

  /** After both runs: a failed rating run has already degraded to the
      default level; a failed reply run raises and the session is dropped
      (the history written before the runs goes with it). */
  function Conclude(sessions: map<int, History>, userId: int, history: History,
                    rated: Outcome, replied: Outcome, states: States): Turn
  {
    if !replied.Success? then Turn(ErrorAnswer, sessions - {userId}, states)
    else
      var reply := ReplyText(replied.text);
      Turn(ReplyAnswer(reply, StressLevel(rated) >= BUTTON_LEVEL),
           sessions[userId := TrimHistory(history + [ChatMessage(Assistant, reply)])], states)
  }

  /** Every stored history is within the retention window. */
  predicate Bounded(sessions: map<int, History>) {
    forall u :: u in sessions ==> |sessions[u]| <= MAX_MESSAGES
  }

  /** With a key and a message that is not a crisis, `handle_message` takes the conversation path. */
  lemma OrdinaryMessage(sessions: map<int, History>, states: States, priority: seq<string>,
                        userId: int, text: Option<string>, ratingProbes: seq<Probe>, replyProbes: seq<Probe>)
    requires |ratingProbes| == |priority| && |replyProbes| == |priority|
    requires !IsCrisis(Some(text.GetOr("")))
    ensures Process(sessions, states, true, priority, userId, text, ratingProbes, replyProbes)
      == Converse(Opened(sessions, userId), states, priority, userId, text.GetOr(""), ratingProbes, replyProbes)
  {
  }

  /** The conversation path is the two runs followed by `Conclude`. */
  lemma ConverseConcludes(sessions: map<int, History>, states: States, priority: seq<string>,
                          userId: int, userText: string, ratingProbes: seq<Probe>, replyProbes: seq<Probe>)
    requires |ratingProbes| == |priority| && |replyProbes| == |priority|
    requires userId in sessions
    ensures var rated := Dispatch(true, priority, ratingProbes, states);
      var replied := Dispatch(true, priority, replyProbes, rated.1);
      Converse(sessions, states, priority, userId, userText, ratingProbes, replyProbes)
        == Conclude(sessions, userId, TrimHistory(sessions[userId] + [ChatMessage(User, userText)]), rated.0, replied.0, replied.1)
  {
  }

  /** Dropping a user's entry undoes opening it. */
  lemma DropOpened(sessions: map<int, History>, userId: int)
    ensures Opened(sessions, userId) - {userId} == sessions - {userId}
  {
  }

  /** A usable reply is stripped and stored after the user's message. */
  lemma ConcludeReply(sessions: map<int, History>, userId: int, earlier: History, userText: string,
                      rated: Outcome, replied: Outcome, states: States)
    requires replied.Success? && !IsBlank(replied.text)
    ensures var t := Conclude(sessions, userId, TrimHistory(earlier + [ChatMessage(User, userText)]), rated, replied, states);
      && t.answer == ReplyAnswer(Strip(replied.text), StressLevel(rated) >= BUTTON_LEVEL)
      && userId in t.sessions
      && t.sessions[userId] == TrimHistory(earlier + [ChatMessage(User, userText), ChatMessage(Assistant, Strip(replied.text))])
      && t.states == states
  {
    TrimPair(earlier, ChatMessage(User, userText), ChatMessage(Assistant, Strip(replied.text)));
  }

  /** A crisis message is answered with the helpline text at once: the
      session is created if absent but no history is appended and no model
      is asked, so the tracker is unchanged. */
  lemma CrisisLeavesHistory(sessions: map<int, History>, states: States, priority: seq<string>,
                            userId: int, text: Option<string>, ratingProbes: seq<Probe>, replyProbes: seq<Probe>)
    requires |ratingProbes| == |priority| && |replyProbes| == |priority|
    requires IsCrisis(Some(text.GetOr("")))
    ensures Process(sessions, states, true, priority, userId, text, ratingProbes, replyProbes)
      == Turn(CrisisAnswer, Opened(sessions, userId), states)
  {
  }

  /** A successful reply leaves the user's history as the newest
      `MAX_MESSAGES` entries of the old history, the user's message and the
      stripped reply; the button is attached exactly when the rated level is
      at least 3, so a failed rating run never attaches it. */
  lemma {:induction false} ReplyUpdatesHistory(sessions: map<int, History>, states: States, priority: seq<string>,
                            userId: int, text: Option<string>, ratingProbes: seq<Probe>, replyProbes: seq<Probe>)
    requires |ratingProbes| == |priority| && |replyProbes| == |priority|
    requires !IsCrisis(Some(text.GetOr("")))
    requires var rated := Dispatch(true, priority, ratingProbes, states);
      Dispatch(true, priority, replyProbes, rated.1).0.Success?
    ensures var t := Process(sessions, states, true, priority, userId, text, ratingProbes, replyProbes);
      var rated := Dispatch(true, priority, ratingProbes, states);
      var replied := Dispatch(true, priority, replyProbes, rated.1);
      var earlier := if userId in sessions then sessions[userId] else [];
      && t.answer == ReplyAnswer(Strip(replied.0.text), StressLevel(rated.0) >= BUTTON_LEVEL)
      && (!rated.0.Success? ==> !t.answer.breathingButton)
      && userId in t.sessions
      && t.sessions[userId] == TrimHistory(earlier + [ChatMessage(User, text.GetOr("")), ChatMessage(Assistant, Strip(replied.0.text))])
      && t.states == replied.1
  {
    var userText := text.GetOr("");
    var withSession := Opened(sessions, userId);
    var rated := Dispatch(true, priority, ratingProbes, states);
    var replied := Dispatch(true, priority, replyProbes, rated.1);
    RunOutcomeSound(priority, replyProbes, 0, rated.1, 0);
    var earlier := if userId in sessions then sessions[userId] else [];
    assert withSession[userId] == earlier;
    OrdinaryMessage(sessions, states, priority, userId, text, ratingProbes, replyProbes);
    ConverseConcludes(withSession, states, priority, userId, userText, ratingProbes, replyProbes);
    ConcludeReply(withSession, userId, earlier, userText, rated.0, replied.0, replied.1);
  }

  /** A failed reply run (exhaustion or an authentication error) drops the
      user's session entirely and sends the generic error text. */
  lemma ReplyFailureDropsSession(sessions: map<int, History>, states: States, priority: seq<string>,
                            userId: int, text: Option<string>, ratingProbes: seq<Probe>, replyProbes: seq<Probe>)
    requires |ratingProbes| == |priority| && |replyProbes| == |priority|
    requires !IsCrisis(Some(text.GetOr("")))
    requires var rated := Dispatch(true, priority, ratingProbes, states);
      !Dispatch(true, priority, replyProbes, rated.1).0.Success?
    ensures var t := Process(sessions, states, true, priority, userId, text, ratingProbes, replyProbes);
      t.answer == ErrorAnswer && t.sessions == sessions - {userId}
  {
    var withSession := Opened(sessions, userId);
    OrdinaryMessage(sessions, states, priority, userId, text, ratingProbes, replyProbes);
    ConverseConcludes(withSession, states, priority, userId, text.GetOr(""), ratingProbes, replyProbes);
    DropOpened(sessions, userId);
  }

  /** Opening a session touches no other user's entry and stores an empty history. */
  lemma OpenedFrame(sessions: map<int, History>, userId: int)
    ensures var o := Opened(sessions, userId);
      && userId in o
      && (forall u :: u != userId ==> (u in o <==> u in sessions) && (u in sessions ==> o[u] == sessions[u]))
      && (Bounded(sessions) ==> Bounded(o))
  {
  }

  /** `Conclude` writes or drops only `userId`'s entry, and what it writes is trimmed. */
  lemma ConcludeFrame(sessions: map<int, History>, userId: int, history: History,
                      rated: Outcome, replied: Outcome, states: States)
    ensures var t := Conclude(sessions, userId, history, rated, replied, states);
      && (forall u :: u != userId ==> (u in t.sessions <==> u in sessions) && (u in sessions ==> t.sessions[u] == sessions[u]))
      && (Bounded(sessions) ==> Bounded(t.sessions))
      && t.states == states
  {
  }

  /** A second write to the same user's entry replaces the first. */
  lemma Overwrite(sessions: map<int, History>, userId: int, first: History, second: History)
    ensures sessions[userId := first][userId := second] == sessions[userId := second]
  {
  }

  /** One message touches only its own user's session, keeps every history
      within the retention window, and, with its two runs taken one after the
      other, keeps the tracker never-cooled. */
  lemma ProcessKeepsInvariants(sessions: map<int, History>, states: States, hasKey: bool, priority: seq<string>,
                            userId: int, text: Option<string>, ratingProbes: seq<Probe>, replyProbes: seq<Probe>)
    requires |ratingProbes| == |priority| && |replyProbes| == |priority|
    ensures var t := Process(sessions, states, hasKey, priority, userId, text, ratingProbes, replyProbes);
      && (forall u :: u != userId ==> (u in t.sessions <==> u in sessions) && (u in sessions ==> t.sessions[u] == sessions[u]))
      && (Bounded(sessions) ==> Bounded(t.sessions))
      && (NeverCooled(states) ==> NeverCooled(t.states))
  {
    OpenedFrame(sessions, userId);
    if hasKey && !IsCrisis(Some(text.GetOr(""))) {
      var withSession := Opened(sessions, userId);
      var userText := text.GetOr("");
      var rated := Dispatch(true, priority, ratingProbes, states);
      var replied := Dispatch(true, priority, replyProbes, rated.1);
      OrdinaryMessage(sessions, states, priority, userId, text, ratingProbes, replyProbes);
      ConverseConcludes(withSession, states, priority, userId, userText, ratingProbes, replyProbes);
      ConcludeFrame(withSession, userId, TrimHistory(withSession[userId] + [ChatMessage(User, userText)]),
                    rated.0, replied.0, replied.1);
      if NeverCooled(states) {
        RunKeepsNeverCooled(priority, ratingProbes, 0, states, 0);
        RunKeepsNeverCooled(priority, replyProbes, 0, rated.1, 0);
      }
    }
  }

  /** `chat_sessions` and the operations that update it. */
  class SessionStore {
    var sessions: map<int, History>

    constructor ()
      ensures sessions == map[]
    {
      sessions := map[];
    }

    /** `clear`: `chat_sessions.pop(user_id, None)`. */
    method Clear(userId: int)
      modifies this
      ensures sessions == old(sessions) - {userId}
    {
      sessions := sessions - {userId};
    }

    /** `handle_message` without its transport calls. */
    method HandleMessage(tracker: Tracker, hasKey: bool, priority: seq<string>, userId: int, text: Option<string>,
                         ratingProbes: seq<Probe>, replyProbes: seq<Probe>) returns (answer: Answer)
      requires |ratingProbes| == |priority| && |replyProbes| == |priority|
      modifies this, tracker
      ensures Turn(answer, sessions, tracker.states)
        == Process(old(sessions), old(tracker.states), hasKey, priority, userId, text, ratingProbes, replyProbes)
    {
      var userText := text.GetOr("");
      if !hasKey {
        return KeyMissingAnswer;
      }
      if userId !in sessions {
        sessions := sessions[userId := []];
      }
      if IsCrisis(Some(userText)) {
        return CrisisAnswer;
      }
      OrdinaryMessage(old(sessions), tracker.states, priority, userId, text, ratingProbes, replyProbes);
      answer := Respond(tracker, priority, userId, userText, ratingProbes, replyProbes);
    }

    /** The part of `handle_message` after the crisis check: store the
        user's message, rate it, ask for the reply and store that. */
    method Respond(tracker: Tracker, priority: seq<string>, userId: int, userText: string,
                    ratingProbes: seq<Probe>, replyProbes: seq<Probe>) returns (answer: Answer)
      requires |ratingProbes| == |priority| && |replyProbes| == |priority|
      requires userId in sessions
      modifies this, tracker
      ensures Turn(answer, sessions, tracker.states)
        == Converse(old(sessions), old(tracker.states), priority, userId, userText, ratingProbes, replyProbes)
    {
      ConverseConcludes(sessions, tracker.states, priority, userId, userText, ratingProbes, replyProbes);
      ghost var withSession := sessions;
      ghost var before := tracker.states;
      var history := sessions[userId];
      history := history + [ChatMessage(User, userText)];
      history := TrimHistory(history);
      sessions := sessions[userId := history];

      var level := RateStress(tracker, true, priority, ratingProbes);
      var replied := Chat(tracker, true, priority, replyProbes);
      ghost var rated := Dispatch(true, priority, ratingProbes, before);
      assert (replied, tracker.states) == Dispatch(true, priority, replyProbes, rated.1);
      if !replied.Success? {
        // the RuntimeError is caught at the handler boundary
        sessions := sessions - {userId};
        assert sessions == withSession - {userId};
        return ErrorAnswer;
      }
      ghost var stored := history;
      var reply := Strip(replied.text);
      if reply == [] {
        reply := DEFAULT_REPLY;
      }
      assert reply == ReplyText(replied.text);
      history := history + [ChatMessage(Assistant, reply)];
      sessions := sessions[userId := TrimHistory(history)];
      Overwrite(withSession, userId, stored, TrimHistory(history));
      return ReplyAnswer(reply, level >= BUTTON_LEVEL);
    }
  }
}
