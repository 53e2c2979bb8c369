/** The chat endpoint's session memory (abi/main.py, byte-identical to
    ai-counselling/abi/main.py): the extractive conversation summary handed to
    the language model and the per-session history that `/respond` extends. */
module ChatSession {
  import opened Wrappers
  import opened Text
  import Safety

  /** One history entry: a dict that may carry a "user" and an "assistant" text. */
  datatype Turn = Turn(user: Option<string>, assistant: Option<string>)

  /** The request body of `/respond`. */
  datatype Message = Message(text: string, sessionId: Option<string>)

  /** The fields of the model's JSON answer; `None` is a missing or null field. */
  datatype Parsed = Parsed(reply: Option<string>, action: Option<string>,
                           followUp: Option<string>, tone: Option<string>)

  /** The `"response"` object returned to the client. */
  datatype Response = Response(reply: string, action: string, followUp: string,
                               tone: string, mirroring: string, sessionId: string)

  const SummaryTurns: nat := 6
  const LineLimit: nat := 220
  const MirrorLimit: nat := 240
  const RawReplyLimit: nat := 600
  const Separator := " | "
  const NewConversation := "New conversation."

  const CrisisReply := "I’m really glad you reached out. Your safety matters. "
    + "If you’re in immediate danger, call your local emergency number now. "
    + "You can also contact a local crisis line or reach out to someone you trust."
  const CrisisAction := "Contact local emergency services or a crisis line now."
  const CrisisFollowUp := "Would you like resources in your area?"
  const DefaultReply := "I’m here and listening."
  const DefaultAction := "Take 3 slow breaths: in 4, hold 4, out 6."
  const DefaultFollowUp := "What feels like a helpful next small step?"
  const FallbackFollowUp := "What would 1% better look like in the next 10 minutes?"

  /** `history[-n:]`: the last n entries, or all of them when there are fewer;
      as in Python, `history[-0:]` is the whole history. */
  function LastN<T>(s: seq<T>, n: nat): (r: seq<T>)
    ensures |r| == if |s| < n || n == 0 then |s| else n
    ensures r == s[|s| - |r|..]
  {
    if |s| <= n || n == 0 then s else s[|s| - n..]
  }

  /** Whether an entry carries neither a "user" nor an "assistant" text. */
  predicate Blank(h: Turn) {
    h.user.None? && h.assistant.None?
  }

  /** The summary lines one entry contributes: its "U: " line, then its "A: " line. */
  function TurnLines(h: Turn): (r: seq<string>)
    ensures |r| == (if h.user.Some? then 1 else 0) + (if h.assistant.Some? then 1 else 0)
    ensures h.user.Some? ==> r[0] == "U: " + Take(h.user.value, LineLimit)
    ensures h.assistant.Some? ==> r[|r| - 1] == "A: " + Take(h.assistant.value, LineLimit)
  {
    (if h.user.Some? then ["U: " + Take(h.user.value, LineLimit)] else [])
    + (if h.assistant.Some? then ["A: " + Take(h.assistant.value, LineLimit)] else [])
  }

  /** The summary lines of a run of entries, in history order. */
  function Lines(hs: seq<Turn>): (r: seq<string>)
    ensures |r| <= 2 * |hs|
  {
    if hs == [] then [] else TurnLines(hs[0]) + Lines(hs[1..])
  }

  /** A run of entries yields no line exactly when no entry carries a text. */
  lemma {:induction false} LinesEmptyIff(hs: seq<Turn>)
    ensures Lines(hs) == [] <==> forall k :: 0 <= k < |hs| ==> Blank(hs[k])
  {
    if hs != [] {
      LinesEmptyIff(hs[1..]);
      assert forall k :: 1 <= k < |hs| ==> hs[k] == hs[1..][k - 1];
    }
  }

  /** The lines of two runs of entries are those of the first, then those of the second. */
  lemma {:induction false} LinesConcat(a: seq<Turn>, b: seq<Turn>)
    ensures Lines(a + b) == Lines(a) + Lines(b)
  {
    if a != [] {
      calc {
        Lines(a + b);
        TurnLines((a + b)[0]) + Lines((a + b)[1..]);
        { assert (a + b)[0] == a[0] && (a + b)[1..] == a[1..] + b; }
        TurnLines(a[0]) + Lines(a[1..] + b);
        { LinesConcat(a[1..], b); }
        TurnLines(a[0]) + (Lines(a[1..]) + Lines(b));
        Lines(a) + Lines(b);
      }
    } else {
      assert a + b == b;
    }
  }

  /** summarize: the last six entries as " | "-joined lines, or "New conversation.". */
  function Summarize(history: seq<Turn>): (r: string)
    ensures r != ""
    ensures (forall k :: 0 <= k < |history| ==> Blank(history[k])) ==> r == NewConversation
  {
    LinesEmptyIff(LastN(history, SummaryTurns));
    var joined := Join(Lines(LastN(history, SummaryTurns)), Separator);
    if joined == "" then NewConversation else joined
  }

  /** Entries older than the last six never reach the summary. */
  lemma SummaryIgnoresOlderTurns(older: seq<Turn>, recent: seq<Turn>)
    requires |recent| >= SummaryTurns
    ensures Summarize(older + recent) == Summarize(recent)
  {
    var whole := older + recent;
    assert LastN(whole, SummaryTurns) == LastN(recent, SummaryTurns) by {
      assert whole[|whole| - SummaryTurns..] == recent[|recent| - SummaryTurns..];
    }
  }

  /** Every summary line is tagged "U: " or "A: " and is at most 223 characters. */
  lemma {:induction false} LinesShape(hs: seq<Turn>)
    ensures |Lines(hs)| <= 2 * |hs|
    ensures forall k :: 0 <= k < |Lines(hs)| ==>
      3 <= |Lines(hs)[k]| <= 3 + LineLimit
      && (Lines(hs)[k][..3] == "U: " || Lines(hs)[k][..3] == "A: ")
  {
    if hs != [] {
      LinesShape(hs[1..]);
    }
  }

  lemma {:induction false} TotalLengthBound(parts: seq<string>, bound: nat)
    requires forall k :: 0 <= k < |parts| ==> |parts[k]| <= bound
    ensures TotalLength(parts) <= |parts| * bound
  {
    if parts != [] {
      TotalLengthBound(parts[1..], bound);
    }
  }

  /** The summary is "New conversation." exactly when the last six entries
      yield no line (for instance when the history is empty). */
  lemma SummaryNewConversationIff(history: seq<Turn>)
    ensures Summarize(history) == NewConversation <==>
      Lines(LastN(history, SummaryTurns)) == []
  {
    var lines := Lines(LastN(history, SummaryTurns));
    if lines != [] {
      LinesShape(LastN(history, SummaryTurns));
      JoinEnds(lines, Separator);
      var joined := Join(lines, Separator);
      assert joined[..|lines[0]|] == lines[0];
      assert joined[0] == lines[0][..3][0];
      assert NewConversation[0] == 'N';
    }
  }

  /** However long the history, the summary stays within 6 * 2 lines of at
      most 223 characters joined by 11 separators. */
  lemma SummaryBounded(history: seq<Turn>)
    ensures |Summarize(history)| <= 2 * SummaryTurns * (3 + LineLimit) + (2 * SummaryTurns - 1) * |Separator|
  {
    var lines := Lines(LastN(history, SummaryTurns));
    LinesShape(LastN(history, SummaryTurns));
    if lines != [] {
      JoinLength(lines, Separator);
      TotalLengthBound(lines, 3 + LineLimit);
      assert |lines| <= 2 * SummaryTurns;
      assert TotalLength(lines) <= |lines| * (3 + LineLimit);
      assert |lines| * (3 + LineLimit) <= 2 * SummaryTurns * (3 + LineLimit);
    }
  }

  /** For complete entries (both texts present) the lines alternate: entry i
      gives line 2i "U: ..." followed by line 2i + 1 "A: ...". */
  lemma {:induction false} LinesInterleave(hs: seq<Turn>, i: nat)
    requires forall k :: 0 <= k < |hs| ==> hs[k].user.Some? && hs[k].assistant.Some?
    requires i < |hs|
    ensures |Lines(hs)| == 2 * |hs|
    ensures Lines(hs)[2 * i] == "U: " + Take(hs[i].user.value, LineLimit)
    ensures Lines(hs)[2 * i + 1] == "A: " + Take(hs[i].assistant.value, LineLimit)
  {
    if i == 0 {
      if |hs| > 1 {
        LinesInterleave(hs[1..], 0);
      }
    } else {
      LinesInterleave(hs[1..], i - 1);
    }
  }

  /** `data.get(field) or default`: an absent or empty field takes the default. */
  function OrDefault(v: Option<string>, default: string): string {
    if v.Some? && v.value != "" then v.value else default
  }

  /** A present, non-empty field is passed through unchanged; an absent or
      empty one is replaced by `default`. */
  predicate Passes(field: Option<string>, value: string, default: string) {
    (field.Some? && field.value != "" ==> value == field.value)
    && (field.None? || field.value == "" ==> value == default)
  }

  /** The part of a response that the model's output decides. */
  datatype Reply = Reply(reply: string, action: string, followUp: string, tone: string)

  function Answer(r: Response): Reply {
    Reply(r.reply, r.action, r.followUp, r.tone)
  }

  /** The reply built from the stripped model output: the parsed JSON object's
      fields with their defaults, or, when the output is not a JSON object, its
      first 600 characters with the fallback action and follow-up. */
  function ModelAnswer(raw: string, parsed: Option<Parsed>): (a: Reply)
    ensures parsed.None? ==>
      a == Reply(Take(raw, RawReplyLimit), DefaultAction, FallbackFollowUp, "neutral")
    ensures parsed.None? ==> |a.reply| <= RawReplyLimit && a.reply == raw[..|a.reply|]
    ensures parsed.Some? ==> Passes(parsed.value.reply, a.reply, DefaultReply)
    ensures parsed.Some? ==> Passes(parsed.value.action, a.action, DefaultAction)
    ensures parsed.Some? ==> Passes(parsed.value.followUp, a.followUp, DefaultFollowUp)
    ensures parsed.Some? ==> Passes(parsed.value.tone, a.tone, "neutral")
    ensures a.action != "" && a.followUp != "" && a.tone != ""
    ensures parsed.Some? ==> a.reply != ""
  {
    match parsed
    case Some(data) =>
      Reply(OrDefault(data.reply, DefaultReply), OrDefault(data.action, DefaultAction),
            OrDefault(data.followUp, DefaultFollowUp), OrDefault(data.tone, "neutral"))
    case None =>
      Reply(Take(raw, RawReplyLimit), DefaultAction, FallbackFollowUp, "neutral")
  }

  /** `msg.session_id or str(uuid4())`, with the fresh id passed in. */
  function ResolveSessionId(requested: Option<string>, freshId: string): string {
    if requested.Some? && requested.value != "" then requested.value else freshId
  }

  /** SESSIONS: the in-memory history of every session. */
  class SessionStore {
    var sessions: map<string, seq<Turn>>

    constructor ()
      ensures sessions == map[]
    {
      sessions := map[];
    }

    /** `SESSIONS.get(sid, {"history": []})["history"]`. */
    function HistoryOf(sid: string): seq<Turn>
      reads this
    {
      if sid in sessions then sessions[sid] else []
    }

    /** respond: screens the text, otherwise asks the model (given the
        summary and the text) and parses its JSON answer; either way the
        session's history grows by exactly one entry and no other session
        changes. */
    method Respond(msg: Message, freshId: string,
                   generate: (string, string) -> Option<string>,
                   parse: string -> Option<Parsed>)
      returns (resp: Response)
      modifies this
      ensures resp.sessionId == ResolveSessionId(msg.sessionId, freshId)
      ensures resp.mirroring == Take(Strip(msg.text), MirrorLimit)
      ensures sessions == old(sessions)[resp.sessionId :=
        old(HistoryOf(resp.sessionId)) + [Turn(Some(Strip(msg.text)), Some(resp.reply))]]
      ensures Safety.IsHighRisk(Some(Strip(msg.text))) ==>
        resp.reply == CrisisReply && resp.action == CrisisAction
        && resp.followUp == CrisisFollowUp && resp.tone == "negative"
      ensures !Safety.IsHighRisk(Some(Strip(msg.text))) ==>
        var raw := Strip(Safety.OrEmpty(generate(Summarize(old(HistoryOf(resp.sessionId))), Strip(msg.text))));
        Answer(resp) == ModelAnswer(raw, parse(raw))
    {
      var text := Strip(msg.text);
      var sid := ResolveSessionId(msg.sessionId, freshId);
      var history := HistoryOf(sid);

      if Safety.IsHighRisk(Some(text)) {
        history := history + [Turn(Some(text), Some(CrisisReply))];
        sessions := sessions[sid := history];
        resp := Response(CrisisReply, CrisisAction, CrisisFollowUp, "negative",
                         Take(text, MirrorLimit), sid);
        return;
      }

      var summary := Summarize(history);
      var raw := Strip(Safety.OrEmpty(generate(summary, text)));

      var answer := ModelAnswer(raw, parse(raw));
      var reply := answer.reply;
      history := history + [Turn(Some(text), Some(reply))];
      sessions := sessions[sid := history];
      resp := Response(reply, answer.action, answer.followUp, answer.tone, Take(text, MirrorLimit), sid);
    }
  }
}
