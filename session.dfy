/** The chat session of the dashboard: the agent state and the transcript kept
    in Streamlit's session state, the way each script run draws the
    transcript, and what one question-and-answer turn adds to it. */
module Session {
  import opened Common
  import opened Json
  import opened Analysis
  import opened Tables
  import opened Charts
  import opened Screens

  /** One transcript entry: a role and its content. */
  datatype Message = Message(role: string, content: Content)

  /** The parts of the agent's state dict the dashboard reads: the message
      history it starts from, its `raw_table` (missing or `None` alike) and
      its `assistant_followup`. */
  datatype AgentState = AgentState(messages: seq<Message>, rawTable: Option<RawTable>, followup: Option<string>)

  /** What one chat bubble shows: the content as Markdown (in a user bubble
      or an assistant bubble), or an analysis report with its insight bullets
      and, when one was built, its chart. */
  datatype View = Prose(asUser: bool, content: Content) | Report(insights: seq<JsonValue>, chart: Option<Display>)

  /** A chat bubble as far as it was drawn. */
  type Step = Drawn<View>

  /** The bubbles one script run draws for the transcript. */
  type Screen = Shown<View>

  /** What a turn shows below the question: the reply's bubble and, when
      it is printed, the follow-up. */
  datatype TurnView = TurnView(step: Step, followup: Option<string>)

  const SystemRole: string := "system"
  const UserRole: string := "user"
  const AssistantRole: string := "assistant"

  // ---------------------------------------------------------------------
  // The transcript
  // ---------------------------------------------------------------------

  /** The state's messages with the system prompt left out, in their order. */
  function Transcript(ms: seq<Message>): (r: seq<Message>)
    ensures forall i :: 0 <= i < |r| ==> r[i].role != SystemRole
    ensures forall m :: m in r <==> m in ms && m.role != SystemRole
    ensures Subsequence(r, ms)
  {
    if ms == [] then []
    else
      var rest := Transcript(ms[1..]);
      assert forall m :: m in ms <==> m == ms[0] || m in ms[1..] by {
        assert ms == [ms[0]] + ms[1..];
      }
      if ms[0].role == SystemRole then rest
      else
        assert ([ms[0]] + rest)[1..] == rest;
        [ms[0]] + rest
  }

  /** Filtering a history piece by piece gives the filtered history. */
  lemma {:induction false} TranscriptAppend(a: seq<Message>, b: seq<Message>)
    ensures Transcript(a + b) == Transcript(a) + Transcript(b)
  {
    if a != [] {
      assert (a + b)[0] == a[0] && (a + b)[1..] == a[1..] + b;
      TranscriptAppend(a[1..], b);
    } else {
      assert a + b == b;
    }
  }

  // ---------------------------------------------------------------------
  // Drawing one message
  // ---------------------------------------------------------------------

  /** The `Insights` entry of a payload. */
  function InsightsOf(p: JsonValue): JsonValue
    requires IsPayload(p)
  {
    Lookup(p.members, InsightsKey).value
  }

  /** The `Chart_Type` entry of a payload: the chart specification. */
  function ChartSpecOf(p: JsonValue): JsonValue
    requires IsPayload(p)
  {
    Lookup(p.members, ChartTypeKey).value
  }

  /** The report once its insight bullets are drawn: no chart over an empty
      table; otherwise the compiled chart, if any, or the compiler's
      exception. */
  function ChartStep(items: seq<JsonValue>, spec: JsonValue, t: Table): (r: Step)
    requires Rectangular(t)
    ensures r.view.Report? && r.view.insights == items
    ensures IsEmpty(t) ==> r == Drawn(Report(items, None), None)
    ensures !IsEmpty(t) ==> (r.fault.None? <==> Compile(spec, t).Ok?)
    ensures r.view.chart.Some? ==> !IsEmpty(t) && Compile(spec, t) == Ok(r.view.chart)
  {
    if IsEmpty(t) then Drawn(Report(items, None), None)
    else
      match Compile(spec, t)
      case Err(f) => Drawn(Report(items, None), Some(f))
      case Ok(d) => Drawn(Report(items, d), None)
  }

  /** A history message as the transcript loop draws it against the current
      table: an assistant message holding an analysis payload becomes a
      report (its insights iterated, then its chart); every other message is
      shown as Markdown, in a user bubble exactly when its role is `user`. */
  function ViewOf(m: Message, t: Table): (r: Step)
    requires Rectangular(t)
    ensures m.role != AssistantRole || ParseAnalysis(m.content).None? <==> r.view.Prose?
    ensures r.view.Prose? ==> r == Drawn(Prose(m.role == UserRole, m.content), None)
  {
    if m.role == AssistantRole && ParseAnalysis(m.content).Some? then
      var p := ParseAnalysis(m.content).value;
      match InsightItems(InsightsOf(p))
      case Err(f) => Drawn(Report([], None), Some(f))
      case Ok(items) => ChartStep(items, ChartSpecOf(p), t)
    else
      Drawn(Prose(m.role == UserRole, m.content), None)
  }

  /** A report's chart always comes from the table it is drawn against: each
      of its charts draws that table or its aggregate. */
  lemma ReportDrawsCurrentTable(m: Message, t: Table)
    requires Rectangular(t)
    ensures var v := ViewOf(m, t).view;
      v.Report? && v.chart.Some? ==>
        forall i :: 0 <= i < |Panels(v.chart.value)| ==> DrawsFrom(Panels(v.chart.value)[i], t)
  {
    var v := ViewOf(m, t).view;
    if v.Report? && v.chart.Some? {
      var p := ParseAnalysis(m.content).value;
      assert Compile(ChartSpecOf(p), t) == Ok(v.chart);
    }
  }

  // ---------------------------------------------------------------------
  // Drawing the transcript
  // ---------------------------------------------------------------------

  /** The bubble of each message, drawn against one table. */
  function Steps(ms: seq<Message>, t: Table): (r: seq<Step>)
    requires Rectangular(t)
    ensures |r| == |ms| && forall i :: 0 <= i < |ms| ==> r[i] == ViewOf(ms[i], t)
  {
    seq(|ms|, i requires 0 <= i < |ms| => ViewOf(ms[i], t))
  }

  /** The transcript loop over a table. */
  function Replay(ms: seq<Message>, t: Table): Screen
    requires Rectangular(t)
  {
    Run(Steps(ms, t))
  }

  /** One script run's drawing of the transcript: the current result table
      is built first (raising on a width mismatch, before any bubble), then
      every message is drawn against it. */
  function RenderPass(raw: Option<RawTable>, chat: seq<Message>): (r: Screen)
    ensures DirectTable(raw).Err? ==> r == Shown([], Some(ValueError))
    ensures DirectTable(raw).Ok? ==> r == Replay(chat, DirectTable(raw).value)
  {
    match DirectTable(raw)
    case Err(f) => Shown([], Some(f))
    case Ok(t) => Replay(chat, t)
  }

  // ---------------------------------------------------------------------
  // A turn
  // ---------------------------------------------------------------------

  /** `if followup:` — a follow-up is printed when it is a non-empty string. */
  function Followup(s: AgentState): (r: Option<string>)
    ensures r.Some? ==> r == s.followup && r.value != []
    ensures r.None? ==> s.followup.None? || s.followup.value == []
  {
    if s.followup.Some? && s.followup.value != [] then s.followup else None
  }

  /** The reply's bubble as the turn draws it right after the agent answers:
      the insights are iterated first, then the result table is built from
      the new state (without a fallback), then the chart.  Whenever that
      table can be built, this is exactly the bubble the transcript loop
      draws for the reply. */
  function TurnStep(reply: Content, raw: Option<RawTable>): (r: Step)
    ensures ParseAnalysis(reply).None? ==> r == Drawn(Prose(false, reply), None)
    ensures DirectTable(raw).Ok? ==> r == ViewOf(Message(AssistantRole, reply), DirectTable(raw).value)
    ensures DirectTable(raw).Err? && ParseAnalysis(reply).Some? ==>
      r.fault == Some(if InsightItems(InsightsOf(ParseAnalysis(reply).value)).Err? then TypeError else ValueError)
  {
    match ParseAnalysis(reply)
    case None => Drawn(Prose(false, reply), None)
    case Some(p) =>
      match InsightItems(InsightsOf(p))
      case Err(f) => Drawn(Report([], None), Some(f))
      case Ok(items) =>
        match DirectTable(raw)
        case Err(f) => Drawn(Report(items, None), Some(f))
        case Ok(t) => ChartStep(items, ChartSpecOf(p), t)
  }

  /** The transcript after a turn with a non-empty question: the question,
      the reply, and the follow-up when the reply was drawn without an
      exception and the new state has one. */
  function AfterTurn(chat: seq<Message>, input: string, newState: AgentState, reply: Content): (r: seq<Message>)
    ensures |chat| + 2 <= |r| <= |chat| + 3 && r[..|chat|] == chat
    ensures r[|chat|] == Message(UserRole, Text(input)) && r[|chat| + 1] == Message(AssistantRole, reply)
    ensures |r| == |chat| + 3 <==>
      TurnStep(reply, newState.rawTable).fault.None? && Followup(newState).Some?
    ensures |r| == |chat| + 3 ==> r[|chat| + 2] == Message(AssistantRole, Text(Followup(newState).value))
  {
    var exchanged := chat + [Message(UserRole, Text(input)), Message(AssistantRole, reply)];
    if TurnStep(reply, newState.rawTable).fault.None? && Followup(newState).Some? then
      exchanged + [Message(AssistantRole, Text(Followup(newState).value))]
    else exchanged
  }

  /** After a turn the script reruns: when the new table can be built and
      nothing raises, the earlier messages are redrawn against the new
      table, followed by the question in a user bubble and the very bubble
      the turn drew for the reply. */
  lemma RerunShowsTurn(chat: seq<Message>, input: string, newState: AgentState, reply: Content, t: Table)
    requires DirectTable(newState.rawTable) == Ok(t)
    requires Replay(chat, t).fault.None?
    requires TurnStep(reply, newState.rawTable).fault.None?
    ensures var r := Replay(AfterTurn(chat, input, newState, reply), t);
      |r.views| >= |chat| + 2
      && r.views[..|chat|] == Replay(chat, t).views
      && r.views[|chat|] == Prose(true, Text(input))
      && r.views[|chat| + 1] == TurnStep(reply, newState.rawTable).view
  {
    TurnSteps(chat, input, newState, reply, t);
    RunAfterCleanPrefix(Steps(AfterTurn(chat, input, newState, reply), t), Steps(chat, t));
  }

  /** The bubbles of the transcript after a turn, against the new table:
      those of the earlier messages, the question's, and the reply's as the
      turn drew it. */
  lemma TurnSteps(chat: seq<Message>, input: string, newState: AgentState, reply: Content, t: Table)
    requires DirectTable(newState.rawTable) == Ok(t)
    ensures var ss := Steps(AfterTurn(chat, input, newState, reply), t);
      |ss| >= |chat| + 2
      && ss[..|chat|] == Steps(chat, t)
      && ss[|chat|] == Drawn(Prose(true, Text(input)), None)
      && ss[|chat| + 1] == TurnStep(reply, newState.rawTable)
  {
    var after := AfterTurn(chat, input, newState, reply);
    var ss := Steps(after, t);
    assert ss[..|chat|] == Steps(chat, t) by {
      assert forall i :: 0 <= i < |chat| ==> after[i] == after[..|chat|][i];
    }
  }

  // ---------------------------------------------------------------------
  // The session
  // ---------------------------------------------------------------------

  /** `_build_chart_from_spec` called for a report whose insights are drawn. */
  method ShowChart(items: seq<JsonValue>, spec: JsonValue, t: Table) returns (s: Step)
    requires Rectangular(t)
    ensures s == ChartStep(items, spec, t)
  {
    if IsEmpty(t) {
      return Drawn(Report(items, None), None);
    }
    var chart := BuildChart(spec, t);
    if chart.Err? {
      return Drawn(Report(items, None), Some(chart.fault));
    }
    return Drawn(Report(items, chart.value), None);
  }

  /** The body of the transcript loop for one message. */
  method ShowMessage(m: Message, t: Table) returns (s: Step)
    requires Rectangular(t)
    ensures s == ViewOf(m, t)
  {
    var parsed := if m.role == AssistantRole then ParseAnalysis(m.content) else None;
    if parsed.None? {
      return Drawn(Prose(m.role == UserRole, m.content), None);
    }
    var insights := InsightItems(InsightsOf(parsed.value));
    if insights.Err? {
      return Drawn(Report([], None), Some(insights.fault));
    }
    s := ShowChart(insights.value, ChartSpecOf(parsed.value), t);
  }

  /** `for m in st.session_state.chat_messages`: each message drawn in turn
      against one table; an exception ends the loop. */
  method ShowTranscript(ms: seq<Message>, t: Table) returns (r: Screen)
    requires Rectangular(t)
    ensures r == Replay(ms, t)
  {
    ghost var steps := Steps(ms, t);
    var views: seq<View> := [];
    var i := 0;
    while i < |ms|
      invariant 0 <= i <= |ms|
      invariant Clean(steps[..i]) && views == ViewsOf(steps[..i])
    {
      var s := ShowMessage(ms[i], t);
      assert s == steps[i];
      ExtendPrefix(steps, i);
      if s.fault.Some? {
        RunFirstFault(steps, i);
        return Shown(views + [s.view], s.fault);
      }
      views := views + [s.view];
      i := i + 1;
    }
    assert steps[..i] == steps;
    RunClean(steps);
    return Shown(views, None);
  }

  /** The session state the script keeps between runs: the agent state and
      the chat transcript, each absent until the first run sets it. */
  class ChatSession {
    var state: Option<AgentState>
    var chat: Option<seq<Message>>

    /** A browser session before the script has run. */
    constructor ()
      ensures state == None && chat == None
    {
      state := None;
      chat := None;
    }

    /** The start of every run: a missing state is built, and a missing
        transcript is taken from the state's messages without the system
        prompt. */
    method Bootstrap(initial: AgentState)
      modifies this
      ensures state == (if old(state).None? then Some(initial) else old(state))
      ensures chat == (if old(chat).None? then Some(Transcript(state.value.messages)) else old(chat))
    {
      if state.None? {
        state := Some(initial);
      }
      if chat.None? {
        chat := Some(Transcript(state.value.messages));
      }
    }

    /** `add_user_message`: one user message at the end. */
    method AddUserMessage(text: string)
      requires chat.Some?
      modifies this
      ensures chat == Some(old(chat).value + [Message(UserRole, Text(text))])
      ensures state == old(state)
    {
      chat := Some(chat.value + [Message(UserRole, Text(text))]);
    }

    /** `add_assistant_message`: one assistant message at the end. */
    method AddAssistantMessage(content: Content)
      requires chat.Some?
      modifies this
      ensures chat == Some(old(chat).value + [Message(AssistantRole, content)])
      ensures state == old(state)
    {
      chat := Some(chat.value + [Message(AssistantRole, content)]);
    }

    /** "Clear chat": a new agent state and an empty transcript. */
    method Clear(initial: AgentState)
      modifies this
      ensures state == Some(initial) && chat == Some([])
    {
      state := Some(initial);
      chat := Some([]);
    }

    /** The transcript loop: the current table is built once, then every
        message is drawn against it until one raises. */
    method Render() returns (r: Screen)
      requires state.Some? && chat.Some?
      ensures r == RenderPass(state.value.rawTable, chat.value)
    {
      var table := DirectTable(state.value.rawTable);
      if table.Err? {
        return Shown([], Some(table.fault));
      }
      r := ShowTranscript(chat.value, table.value);
    }

    /** A question typed into the chat box.  An empty one does nothing.
        Otherwise the question is appended, the agent's new state and reply
        (computed elsewhere) are stored, the reply is appended and drawn, and
        the follow-up is printed and appended when the drawing did not raise. */
    method Turn(input: string, newState: AgentState, reply: Content) returns (shown: Option<TurnView>)
      requires chat.Some?
      modifies this
      ensures input == [] ==> shown == None && state == old(state) && chat == old(chat)
      ensures input != [] ==>
        state == Some(newState)
        && chat == Some(AfterTurn(old(chat).value, input, newState, reply))
        && shown.Some? && shown.value.step == TurnStep(reply, newState.rawTable)
        && shown.value.followup == (if shown.value.step.fault.None? then Followup(newState) else None)
    {
      if input == [] {
        return None;
      }
      AddUserMessage(input);
      state := Some(newState);
      AddAssistantMessage(reply);
      assert chat.value == old(chat).value + [Message(UserRole, Text(input)), Message(AssistantRole, reply)];
      var step: Step;
      var parsed := ParseAnalysis(reply);
      if parsed.None? {
        step := Drawn(Prose(false, reply), None);
      } else {
        var insights := InsightItems(InsightsOf(parsed.value));
        if insights.Err? {
          step := Drawn(Report([], None), Some(insights.fault));
        } else {
          var table := DirectTable(newState.rawTable);
          if table.Err? {
            step := Drawn(Report(insights.value, None), Some(table.fault));
          } else {
            step := ShowChart(insights.value, ChartSpecOf(parsed.value), table.value);
          }
        }
      }
      assert step == TurnStep(reply, newState.rawTable);
      if step.fault.Some? {
        return Some(TurnView(step, None));
      }
      var followup := Followup(newState);
      if followup.Some? {
        AddAssistantMessage(Text(followup.value));
      }
      return Some(TurnView(step, followup));
    }

    /** One run of the script: the session is bootstrapped; a click on
        "Clear chat" resets it and reruns at once; otherwise the transcript
        is drawn, and only when the drawing did not raise does the run reach
        the chat box, so a transcript that raises blocks every question until
        the chat is cleared. */
    method RunScript(initial: AgentState, clear: bool, input: string, newState: AgentState, reply: Content)
      returns (screen: Screen, shown: Option<TurnView>)
      modifies this
      ensures clear ==> state == Some(initial) && chat == Some([]) && screen == Shown([], None) && shown == None
      ensures !clear ==>
        var s0 := if old(state).None? then initial else old(state).value;
        var c0 := if old(chat).None? then Transcript(s0.messages) else old(chat).value;
        && screen == RenderPass(s0.rawTable, c0)
        && (screen.fault.Some? || input == [] ==> shown == None && state == Some(s0) && chat == Some(c0))
        && (screen.fault.None? && input != [] ==>
              && state == Some(newState)
              && chat == Some(AfterTurn(c0, input, newState, reply))
              && shown.Some? && shown.value.step == TurnStep(reply, newState.rawTable))
    {
      Bootstrap(initial);
      if clear {
        Clear(initial);
        return Shown([], None), None;
      }
      screen := Render();
      if screen.fault.Some? {
        return screen, None;
      }
      shown := Turn(input, newState, reply);
    }
  }

  /** Clearing the chat and rerunning leaves an empty transcript, whereas a
      new session starts from the initial state's non-system messages. */
  method ClearThenRerun(initial: AgentState, earlier: AgentState) returns (cleared: seq<Message>, restarted: seq<Message>)
    ensures cleared == []
    ensures restarted == Transcript(initial.messages)
  {
    var session := new ChatSession();
    session.Bootstrap(earlier);
    session.Clear(initial);
    session.Bootstrap(initial);
    cleared := session.chat.value;
    var other := new ChatSession();
    other.Bootstrap(initial);
    restarted := other.chat.value;
  }
}
