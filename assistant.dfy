/** The assistant panel's session: the open flag, the append-only transcript,
    the draft, and the resolutions scheduled by submissions but not yet fired.

    The pure part states each transition as a function on `PanelState`; the
    class `AssistantPanel` holds the same state in fields and its methods are
    proved to perform exactly those transitions. The two timers of the panel
    are events: `Interval` is one firing of the 30-second insight interval and
    `Reply` is one firing of an 800 ms response callback. All callbacks share
    that one delay, so they fire in the order they were scheduled and
    `pending` is a first-in first-out queue of the texts captured at submit
    time. */
module Assistant {
  import opened Text
  import opened Commands

  datatype Sender = Ai | User

  /** A transcript entry. `id` is opaque: the greeting's is "initial", the
      others are clock readings supplied by the caller. Timestamps are not kept. */
  datatype Message = Message(id: string, content: string, sender: Sender)

  const GreetingId: string := "initial"
  const GreetingText: string := "Hello! I'm your Canonical Nexus AI assistant. How can I help you today?"

  /** Insights are only added while the transcript is shorter than this. */
  const InsightCap: nat := 10

  /** The greeting the mount effect installs. */
  function Greeting(): Message {
    Message(GreetingId, GreetingText, Ai)
  }

  /** The panel's state cells, plus the queue of scheduled replies. */
  datatype PanelState = PanelState(isOpen: bool, messages: seq<Message>, input: string, pending: seq<string>)

  /** The state of a panel just created, before its mount effect runs. */
  function Fresh(): PanelState {
    PanelState(false, [], "", [])
  }

  /** The mount effect: the transcript becomes the greeting alone. */
  function Mounted(s: PanelState): PanelState {
    s.(messages := [Greeting()])
  }

  /** The state every session starts from once mounted: closed, an empty
      draft, nothing scheduled, a transcript of exactly the greeting, and the
      session invariant holds. */
  function Initial(): (r: PanelState)
    ensures !r.isOpen && r.input == "" && r.pending == []
    ensures r.messages == [Message("initial", GreetingText, Ai)]
    ensures Consistent(r)
  {
    CannedTextsNotEmpty();
    assert UserTexts([Greeting()]) == [];
    Mounted(Fresh())
  }

  /** `addMessage` is append-only: the old transcript is a prefix of the new
      one, which is exactly one message longer and ends with the new message;
      nothing else changes. */
  function WithMessage(s: PanelState, id: string, content: string, sender: Sender): (r: PanelState)
    ensures s.messages <= r.messages && |r.messages| == |s.messages| + 1
    ensures r.messages[|s.messages|] == Message(id, content, sender)
    ensures r.isOpen == s.isOpen && r.input == s.input && r.pending == s.pending
  {
    s.(messages := s.messages + [Message(id, content, sender)])
  }

  /** `handleSubmit`: a blank draft changes nothing; otherwise the raw draft
      becomes a user message, the draft is cleared and a reply to the draft
      is scheduled. */
  function Submitted(s: PanelState, id: string): (r: PanelState)
    ensures r == s <==> IsBlank(s.input)
    ensures !IsBlank(s.input) ==>
      && |r.messages| == |s.messages| + 1 && |r.pending| == |s.pending| + 1
      && r.pending[|s.pending|] == s.input && r.input == ""
  {
    if IsBlank(s.input) then s
    else WithMessage(s, id, s.input, User).(input := "", pending := s.pending + [s.input])
  }

  /** One firing of the insight interval with random pick `pick`: an insight
      is appended only while the panel is open and the transcript holds fewer
      than `InsightCap` messages. */
  function Ticked(s: PanelState, pick: nat, id: string): (r: PanelState)
    requires pick < |Insights|
    ensures r != s <==> s.isOpen && |s.messages| < InsightCap
    ensures |s.messages| <= InsightCap ==> |r.messages| <= InsightCap
    ensures s.messages <= r.messages
    ensures r != s ==> |r.messages| == |s.messages| + 1 && r.messages[|s.messages|].sender == Ai
                       && r.messages[|s.messages|].content in Insights
    ensures r.isOpen == s.isOpen && r.input == s.input && r.pending == s.pending
  {
    if s.isOpen && |s.messages| < InsightCap then WithMessage(s, id, Insights[pick], Ai) else s
  }

  /** The oldest scheduled reply fires: the reply to the text captured at its
      submission is appended. */
  function Resolved(s: PanelState, id: string): (r: PanelState)
    requires s.pending != []
    ensures r.pending == s.pending[1..]
    ensures r.messages == s.messages + [Message(id, Respond(s.pending[0]), Ai)]
    ensures r.isOpen == s.isOpen && r.input == s.input
  {
    WithMessage(s.(pending := s.pending[1..]), id, Respond(s.pending[0]), Ai)
  }

  /** What can happen to a mounted panel. */
  datatype Event =
    | Toggle(open: bool)              // the collapsible's onOpenChange
    | Type(text: string)              // the input's onChange
    | Send(id: string)                // the form's onSubmit
    | Interval(pick: nat, id: string) // the 30-second interval fires
    | Reply(id: string)               // the oldest 800 ms callback fires

  /** An event can occur: the random pick is an index of the pool, and a reply
      fires only if one was scheduled. */
  predicate Enabled(s: PanelState, e: Event) {
    match e
    case Interval(pick, _) => pick < |Insights|
    case Reply(_) => s.pending != []
    case _ => true
  }

  /** The transcript only grows: every event keeps the old transcript as a
      prefix and adds at most one message. */
  function Step(s: PanelState, e: Event): (r: PanelState)
    requires Enabled(s, e)
    ensures s.messages <= r.messages && |r.messages| <= |s.messages| + 1
  {
    match e
    case Toggle(open) => s.(isOpen := open)
    case Type(text) => s.(input := text)
    case Send(id) => Submitted(s, id)
    case Interval(pick, id) => Ticked(s, pick, id)
    case Reply(id) => Resolved(s, id)
  }

  /** Every event of `evs` can occur when its turn comes. */
  predicate Admissible(s: PanelState, evs: seq<Event>)
    decreases |evs|
  {
    evs == [] || (Enabled(s, evs[0]) && Admissible(Step(s, evs[0]), evs[1..]))
  }

  function Run(s: PanelState, evs: seq<Event>): PanelState
    requires Admissible(s, evs)
    decreases |evs|
  {
    if evs == [] then s else Run(Step(s, evs[0]), evs[1..])
  }

  /** The contents of the user messages, in transcript order. */
  function UserTexts(msgs: seq<Message>): seq<string> {
    if msgs == [] then []
    else UserTexts(msgs[..|msgs| - 1]) + (if msgs[|msgs| - 1].sender == User then [msgs[|msgs| - 1].content] else [])
  }

  /** The session invariant: the scheduled replies belong to the latest user
      messages, in order; no committed message is empty, and no user message
      is blank. */
  predicate Consistent(s: PanelState) {
    var users := UserTexts(s.messages);
    && |s.pending| <= |users|
    && s.pending == users[|users| - |s.pending|..]
    && (forall i :: 0 <= i < |s.messages| ==> s.messages[i].content != [])
    && (forall i :: 0 <= i < |s.messages| && s.messages[i].sender == User ==> !IsBlank(s.messages[i].content))
  }

  /** No canned text is empty. */
  lemma CannedTextsNotEmpty()
    ensures GreetingText != [] && FallbackResponse != []
    ensures forall k :: 0 <= k < |CommandTable| ==> CommandTable[k].response != []
    ensures forall k :: 0 <= k < |Insights| ==> Insights[k] != []
  {
  }

  /** Appending a message adds its text to the user texts exactly when it is
      a user message. */
  lemma UserTextsAppend(msgs: seq<Message>, m: Message)
    ensures UserTexts(msgs + [m]) == UserTexts(msgs) + (if m.sender == User then [m.content] else [])
  {
    assert (msgs + [m])[..|msgs|] == msgs;
  }

  /** A blank submission is a no-op: transcript, draft and queue are untouched.
      This restates, for readers, one direction of `Submitted`'s contract. */
  lemma BlankSubmitChangesNothing(s: PanelState, id: string)
    requires IsBlank(s.input)
    ensures Submitted(s, id) == s
  {
  }

  /** A non-blank submission appends one user message holding the raw draft,
      clears the draft, and schedules one reply to that draft. */
  lemma SubmitEffect(s: PanelState, id: string)
    requires !IsBlank(s.input)
    ensures var t := Submitted(s, id);
      && t.messages == s.messages + [Message(id, s.input, User)]
      && t.input == "" && t.pending == s.pending + [s.input] && t.isOpen == s.isOpen
  {
  }

  /** A submission keeps the invariant: its text joins both the user texts
      and the queue. */
  lemma SubmittedConsistent(s: PanelState, id: string)
    requires Consistent(s)
    ensures Consistent(Submitted(s, id))
  {
    if !IsBlank(s.input) {
      var t := Submitted(s, id);
      var users := UserTexts(s.messages);
      UserTextsAppend(s.messages, Message(id, s.input, User));
      assert UserTexts(t.messages) == users + [s.input];
      assert t.pending == s.pending + [s.input];
      assert forall i :: 0 <= i < |s.messages| ==> t.messages[i] == s.messages[i];
    }
  }

  /** A tick keeps the invariant: an insight is never empty and is no user text. */
  lemma TickedConsistent(s: PanelState, pick: nat, id: string)
    requires pick < |Insights| && Consistent(s)
    ensures Consistent(Ticked(s, pick, id))
  {
    if s.isOpen && |s.messages| < InsightCap {
      CannedTextsNotEmpty();
      var t := Ticked(s, pick, id);
      UserTextsAppend(s.messages, Message(id, Insights[pick], Ai));
      assert forall i :: 0 <= i < |s.messages| ==> t.messages[i] == s.messages[i];
    }
  }

  /** A reply keeps the invariant: the answered text leaves the front of the
      queue, and replies are never empty. */
  lemma ResolvedConsistent(s: PanelState, id: string)
    requires s.pending != [] && Consistent(s)
    ensures Consistent(Resolved(s, id))
  {
    CannedTextsNotEmpty();
    var t := Resolved(s, id);
    var users := UserTexts(s.messages);
    UserTextsAppend(s.messages, Message(id, Respond(s.pending[0]), Ai));
    assert UserTexts(t.messages) == users;
    assert t.pending == users[|users| - |t.pending|..];
    assert forall i :: 0 <= i < |s.messages| ==> t.messages[i] == s.messages[i];
  }

  /** Every event keeps the invariant. */
  lemma StepConsistent(s: PanelState, e: Event)
    requires Enabled(s, e) && Consistent(s)
    ensures Consistent(Step(s, e))
  {
    match e
    case Toggle(_) =>
    case Type(_) =>
    case Send(id) => SubmittedConsistent(s, id);
    case Interval(pick, id) => TickedConsistent(s, pick, id);
    case Reply(id) => ResolvedConsistent(s, id);
  }

  /** Running `e` and then `rest` is running `[e] + rest`. */
  lemma RunCons(s: PanelState, e: Event, rest: seq<Event>)
    requires Enabled(s, e) && Admissible(Step(s, e), rest)
    ensures Admissible(s, [e] + rest)
    ensures Run(s, [e] + rest) == Run(Step(s, e), rest)
  {
    assert ([e] + rest)[1..] == rest;
  }

  /** Every admissible run keeps the invariant. */
  lemma {:induction false} RunConsistent(s: PanelState, evs: seq<Event>)
    requires Admissible(s, evs) && Consistent(s)
    ensures Consistent(Run(s, evs))
    decreases |evs|
  {
    if evs != [] {
      StepConsistent(s, evs[0]);
      RunConsistent(Step(s, evs[0]), evs[1..]);
    }
  }

  /** Over a whole run the old transcript stays a prefix of the new one, and
      the transcript grows by at most one message per event. */
  lemma {:induction false} RunAppendOnly(s: PanelState, evs: seq<Event>)
    requires Admissible(s, evs)
    ensures s.messages <= Run(s, evs).messages
    ensures |Run(s, evs).messages| <= |s.messages| + |evs|
    decreases |evs|
  {
    if evs != [] {
      RunAppendOnly(Step(s, evs[0]), evs[1..]);
    }
  }

  /** No event of `evs` is a firing of the insight interval. */
  predicate NoIntervals(evs: seq<Event>) {
    forall i :: 0 <= i < |evs| ==> !evs[i].Interval?
  }

  /** Apart from insights, the transcript grows by two messages per non-blank
      submission, less the replies still scheduled: a submission adds a
      message, a user text and a scheduled reply; a reply adds a message and
      consumes a scheduled reply; the other events add nothing. */
  predicate Balanced(s: PanelState, t: PanelState) {
    |t.messages| - |s.messages|
      == 2 * (|UserTexts(t.messages)| - |UserTexts(s.messages)|) - (|t.pending| - |s.pending|)
  }

  lemma StepBalanced(s: PanelState, e: Event)
    requires Enabled(s, e) && !e.Interval?
    ensures Balanced(s, Step(s, e))
  {
    match e
    case Toggle(_) =>
    case Type(_) =>
    case Send(id) =>
    case Reply(id) =>
  }

  lemma {:induction false} RunBalanced(s: PanelState, evs: seq<Event>)
    requires Admissible(s, evs) && NoIntervals(evs)
    ensures Balanced(s, Run(s, evs))
    decreases |evs|
  {
    if evs != [] {
      assert NoIntervals(evs[1..]) by {
        forall i | 0 <= i < |evs[1..]| ensures !evs[1..][i].Interval? {
          assert evs[1..][i] == evs[i + 1];
        }
      }
      StepBalanced(s, evs[0]);
      RunBalanced(Step(s, evs[0]), evs[1..]);
    }
  }

  /** Once every reply has fired, a mounted panel without insights holds the
      greeting and, for each of its N user messages, one reply: 1 + 2N
      messages in all. `s` is any state the mount effect leaves, `Initial()`
      among them. */
  lemma TranscriptCount(s: PanelState, evs: seq<Event>)
    requires s.messages == [Greeting()] && s.pending == []
    requires Admissible(s, evs) && NoIntervals(evs)
    ensures Run(s, evs).pending == [] ==>
      |Run(s, evs).messages| == 1 + 2 * |UserTexts(Run(s, evs).messages)|
  {
    assert UserTexts(s.messages) == [];
    RunBalanced(s, evs);
  }

  /** All events of `evs` are firings of the insight interval. */
  predicate OnlyIntervals(evs: seq<Event>) {
    forall i :: 0 <= i < |evs| ==> evs[i].Interval?
  }

  /** Ticks alone never take the transcript past the cap: from at most
      `InsightCap` messages they stay within it, and from more they add nothing. */
  lemma {:induction false} IntervalsRespectCap(s: PanelState, evs: seq<Event>)
    requires Admissible(s, evs) && OnlyIntervals(evs)
    ensures |s.messages| <= InsightCap ==> |Run(s, evs).messages| <= InsightCap
    ensures |s.messages| >= InsightCap ==> Run(s, evs) == s
    decreases |evs|
  {
    if evs != [] {
      assert OnlyIntervals(evs[1..]) by {
        forall i | 0 <= i < |evs[1..]| ensures evs[1..][i].Interval? {
          assert evs[1..][i] == evs[i + 1];
        }
      }
      IntervalsRespectCap(Step(s, evs[0]), evs[1..]);
    }
  }

  /** A closed panel ignores its interval: ticks change nothing at all. */
  lemma {:induction false} ClosedPanelIgnoresIntervals(s: PanelState, evs: seq<Event>)
    requires Admissible(s, evs) && OnlyIntervals(evs) && !s.isOpen
    ensures Run(s, evs) == s
    decreases |evs|
  {
    if evs != [] {
      assert OnlyIntervals(evs[1..]) by {
        forall i | 0 <= i < |evs[1..]| ensures evs[1..][i].Interval? {
          assert evs[1..][i] == evs[i + 1];
        }
      }
      ClosedPanelIgnoresIntervals(Step(s, evs[0]), evs[1..]);
    }
  }

  /** A reply is computed from the text captured when it was submitted: typing
      a new draft while the reply is pending does not change it. */
  lemma ReplyUsesCapturedText(s: PanelState, sendId: string, replyId: string, other: string)
    requires s.pending == [] && !IsBlank(s.input)
    ensures Admissible(s, [Send(sendId), Type(other), Reply(replyId)])
    ensures var t := Run(s, [Send(sendId), Type(other), Reply(replyId)]);
      && t.messages == s.messages + [Message(sendId, s.input, User), Message(replyId, Respond(s.input), Ai)]
      && t.input == other && t.pending == []
  {
    var s1 := Submitted(s, sendId);
    assert s1.messages == s.messages + [Message(sendId, s.input, User)] && s1.pending == [s.input];
    var s2 := s1.(input := other);
    var s3 := Resolved(s2, replyId);
    var t1 := [Reply(replyId)];
    var t0 := [Type(other)] + t1;
    RunCons(s2, Reply(replyId), []);
    RunCons(s1, Type(other), t1);
    RunCons(s, Send(sendId), t0);
    assert [Send(sendId), Type(other), Reply(replyId)] == [Send(sendId)] + t0;
  }

  /** Running `xs` and then `ys` is running `xs + ys`. */
  lemma {:induction false} RunAppend(s: PanelState, xs: seq<Event>, ys: seq<Event>)
    requires Admissible(s, xs) && Admissible(Run(s, xs), ys)
    ensures Admissible(s, xs + ys) && Run(s, xs + ys) == Run(Run(s, xs), ys)
    decreases |xs|
  {
    if xs != [] {
      var zs := xs + ys;
      assert zs[0] == xs[0];
      assert zs[1..] == xs[1..] + ys;
      assert Run(s, xs) == Run(Step(s, xs[0]), xs[1..]);
      RunAppend(Step(s, xs[0]), xs[1..], ys);
      assert Run(s, zs) == Run(Step(s, xs[0]), zs[1..]);
    } else {
      assert xs + ys == ys;
    }
  }

  /** Two texts typed and submitted one after the other, from an empty queue:
      both are in the transcript and both are scheduled, in that order. */
  lemma TwoSubmissions(s: PanelState, a: string, b: string, sendA: string, sendB: string)
    requires s.pending == [] && !IsBlank(a) && !IsBlank(b)
    ensures var evs := [Type(a), Send(sendA), Type(b), Send(sendB)];
      && Admissible(s, evs)
      && Run(s, evs) == s.(messages := s.messages + [Message(sendA, a, User), Message(sendB, b, User)],
                           input := "", pending := [a, b])
  {
    var s1 := Step(s, Type(a));
    var s2 := Step(s1, Send(sendA));
    var s3 := Step(s2, Type(b));
    var s4 := Step(s3, Send(sendB));
    assert s4 == s.(messages := s.messages + [Message(sendA, a, User), Message(sendB, b, User)],
                    input := "", pending := [a, b]);
    var t3: seq<Event> := [];
    var t2 := [Send(sendB)] + t3;
    var t1 := [Type(b)] + t2;
    var t0 := [Send(sendA)] + t1;
    RunCons(s3, Send(sendB), t3);
    RunCons(s2, Type(b), t2);
    RunCons(s1, Send(sendA), t1);
    RunCons(s, Type(a), t0);
    assert [Type(a), Send(sendA), Type(b), Send(sendB)] == [Type(a)] + t0;
  }

  /** Two scheduled replies fire: the first answers the older text. */
  lemma TwoReplies(s: PanelState, a: string, b: string, replyA: string, replyB: string)
    requires s.pending == [a, b]
    ensures var evs := [Reply(replyA), Reply(replyB)];
      && Admissible(s, evs)
      && Run(s, evs).messages == s.messages + [Message(replyA, Respond(a), Ai), Message(replyB, Respond(b), Ai)]
      && Run(s, evs).pending == [] && Run(s, evs).input == s.input
  {
    var s1 := Resolved(s, replyA);
    assert s1.pending == [b];
    var s2 := Resolved(s1, replyB);
    RunCons(s1, Reply(replyB), []);
    RunCons(s, Reply(replyA), [Reply(replyB)]);
  }

  /** Two submissions in flight are answered in the order they were made,
      each from its own text. */
  lemma RepliesInSubmissionOrder(s: PanelState, a: string, b: string,
                                  sendA: string, sendB: string, replyA: string, replyB: string)
    requires s.pending == [] && !IsBlank(a) && !IsBlank(b)
    ensures var evs := [Type(a), Send(sendA), Type(b), Send(sendB), Reply(replyA), Reply(replyB)];
      && Admissible(s, evs)
      && Run(s, evs).messages == s.messages + [Message(sendA, a, User), Message(sendB, b, User),
                                               Message(replyA, Respond(a), Ai), Message(replyB, Respond(b), Ai)]
      && Run(s, evs).pending == []
  {
    var xs := [Type(a), Send(sendA), Type(b), Send(sendB)];
    var ys := [Reply(replyA), Reply(replyB)];
    TwoSubmissions(s, a, b, sendA, sendB);
    TwoReplies(Run(s, xs), a, b, replyA, replyB);
    RunAppend(s, xs, ys);
    assert xs + ys == [Type(a), Send(sendA), Type(b), Send(sendB), Reply(replyA), Reply(replyB)];
  }

  /** The events of a conversation in which each text is typed, submitted and
      answered before the next is typed; text `i` is submitted with id
      `sendIds[i]` and answered with id `replyIds[i]`. */
  function Exchanges(texts: seq<string>, sendIds: seq<string>, replyIds: seq<string>): seq<Event>
    requires |sendIds| == |texts| == |replyIds|
  {
    if texts == [] then []
    else [Type(texts[0]), Send(sendIds[0]), Reply(replyIds[0])] + Exchanges(texts[1..], sendIds[1..], replyIds[1..])
  }

  /** What such a conversation adds to the transcript: each text as a user
      message, immediately followed by its reply. */
  function Dialogue(texts: seq<string>, sendIds: seq<string>, replyIds: seq<string>): (d: seq<Message>)
    requires |sendIds| == |texts| == |replyIds|
    ensures |d| == 2 * |texts|
    ensures forall i :: 0 <= i < |texts| ==>
      d[2 * i] == Message(sendIds[i], texts[i], User) && d[2 * i + 1] == Message(replyIds[i], Respond(texts[i]), Ai)
  {
    if texts == [] then []
    else
      var pair := [Message(sendIds[0], texts[0], User), Message(replyIds[0], Respond(texts[0]), Ai)];
      var later := Dialogue(texts[1..], sendIds[1..], replyIds[1..]);
      assert forall i :: 1 <= i < |texts| ==> (pair + later)[2 * i] == later[2 * (i - 1)];
      assert forall i :: 1 <= i < |texts| ==> (pair + later)[2 * i + 1] == later[2 * (i - 1) + 1];
      pair + later
  }

  /** The panel after one exchange from an empty queue: the text and its
      reply appended, the draft empty. */
  function Exchanged(s: PanelState, t: string, sendId: string, replyId: string): PanelState {
    s.(messages := s.messages + [Message(sendId, t, User), Message(replyId, Respond(t), Ai)], input := "")
  }

  /** The transcript after the first exchange, extended by the dialogue of
      the remaining texts, is the transcript extended by the whole dialogue. */
  lemma DialogueStep(msgs: seq<Message>, texts: seq<string>, sendIds: seq<string>, replyIds: seq<string>)
    requires texts != [] && |sendIds| == |texts| == |replyIds|
    ensures msgs + [Message(sendIds[0], texts[0], User), Message(replyIds[0], Respond(texts[0]), Ai)]
                 + Dialogue(texts[1..], sendIds[1..], replyIds[1..])
         == msgs + Dialogue(texts, sendIds, replyIds)
  {
    var pair := [Message(sendIds[0], texts[0], User), Message(replyIds[0], Respond(texts[0]), Ai)];
    assert Dialogue(texts, sendIds, replyIds) == pair + Dialogue(texts[1..], sendIds[1..], replyIds[1..]);
  }

  /** One exchange from an empty queue: type a non-blank text, submit it and
      let its reply fire. The transcript gains the text and its reply, the
      draft is left empty and nothing stays scheduled. */
  lemma OneExchange(s: PanelState, t: string, sendId: string, replyId: string, rest: seq<Event>)
    requires s.pending == [] && !IsBlank(t)
    requires Admissible(Exchanged(s, t, sendId, replyId), rest)
    ensures Admissible(s, [Type(t), Send(sendId), Reply(replyId)] + rest)
    ensures Run(s, [Type(t), Send(sendId), Reply(replyId)] + rest) == Run(Exchanged(s, t, sendId, replyId), rest)
  {
    var s1 := Step(s, Type(t));
    var s2 := Step(s1, Send(sendId));
    assert s2.pending == [t];
    assert Step(s2, Reply(replyId)) == Exchanged(s, t, sendId, replyId);
    var r1 := [Reply(replyId)] + rest;
    var r2 := [Send(sendId)] + r1;
    RunCons(s2, Reply(replyId), rest);
    RunCons(s1, Send(sendId), r1);
    RunCons(s, Type(t), r2);
    assert [Type(t), Send(sendId), Reply(replyId)] + rest == [Type(t)] + r2;
  }

  /** After N non-blank submissions, each answered before the next, the
      transcript has grown by exactly 2N messages: every submitted text
      followed by its reply, each message with its own id. */
  lemma {:induction false} ConversationTranscript(s: PanelState, texts: seq<string>,
                                                  sendIds: seq<string>, replyIds: seq<string>)
    requires s.pending == [] && |sendIds| == |texts| == |replyIds|
    requires forall i :: 0 <= i < |texts| ==> !IsBlank(texts[i])
    ensures Admissible(s, Exchanges(texts, sendIds, replyIds))
    ensures Run(s, Exchanges(texts, sendIds, replyIds)).messages == s.messages + Dialogue(texts, sendIds, replyIds)
    ensures Run(s, Exchanges(texts, sendIds, replyIds)).pending == []
    ensures |Run(s, Exchanges(texts, sendIds, replyIds)).messages| == |s.messages| + 2 * |texts|
    decreases |texts|
  {
    if texts != [] {
      var t := texts[0];
      var next := Exchanged(s, t, sendIds[0], replyIds[0]);
      var rest := Exchanges(texts[1..], sendIds[1..], replyIds[1..]);
      ConversationTranscript(next, texts[1..], sendIds[1..], replyIds[1..]);
      OneExchange(s, t, sendIds[0], replyIds[0], rest);
      assert Exchanges(texts, sendIds, replyIds) == [Type(t), Send(sendIds[0]), Reply(replyIds[0])] + rest;
      DialogueStep(s.messages, texts, sendIds, replyIds);
    }
  }

  /** The panel as the component holds it: `isOpen`, `messages` and `input`
      are its state cells and `pending` stands for the scheduled callbacks. */
  class AssistantPanel {
    var isOpen: bool
    var messages: seq<Message>
    var input: string
    var pending: seq<string>

    function State(): PanelState
      reads this
    {
      PanelState(isOpen, messages, input, pending)
    }

    /** A new panel, before its mount effect: closed, no messages, empty draft. */
    constructor ()
      ensures State() == Fresh()
    {
      isOpen := false;
      messages := [];
      input := "";
      pending := [];
    }

    /** The mount effect, which runs once on a new panel, seeds the transcript
        with the greeting. */
    method Mount()
      requires State() == Fresh()
      modifies this
      ensures State() == Initial() && Consistent(State())
    {
      messages := [Greeting()];
    }

    method SetOpen(open: bool)
      modifies this
      ensures State() == Step(old(State()), Toggle(open))
    {
      isOpen := open;
    }

    method SetInput(text: string)
      modifies this
      ensures State() == Step(old(State()), Type(text))
    {
      input := text;
    }

    /** Appends one message and changes nothing else. The second `ensures`
        restates, for readers, the growth that `WithMessage`'s contract gives. */
    method AddMessage(content: string, sender: Sender, id: string)
      modifies this
      ensures State() == WithMessage(old(State()), id, content, sender)
      ensures old(messages) <= messages && |messages| == |old(messages)| + 1
    {
      messages := messages + [Message(id, content, sender)];
    }

    /** The form's submit handler; `id` is the clock reading of the new message. */
    method HandleSubmit(id: string)
      modifies this
      ensures State() == Submitted(old(State()), id)
      ensures Consistent(old(State())) ==> Consistent(State())
    {
      ghost var before := State();
      if Trim(input) == [] {
        return;
      }
      AddMessage(input, User, id);
      pending := pending + [input];
      input := "";
      if Consistent(before) {
        SubmittedConsistent(before, id);
      }
    }

    /** One firing of the insight interval; `pick` stands for the random index. */
    method Tick(pick: nat, id: string)
      requires pick < |Insights|
      modifies this
      ensures State() == Ticked(old(State()), pick, id)
      ensures Consistent(old(State())) ==> Consistent(State())
    {
      ghost var before := State();
      if isOpen && |messages| < InsightCap {
        AddMessage(Insights[pick], Ai, id);
      }
      if Consistent(before) {
        TickedConsistent(before, pick, id);
      }
    }

    /** The oldest scheduled response callback fires. */
    method FireReply(id: string)
      requires pending != []
      modifies this
      ensures State() == Resolved(old(State()), id)
      ensures Consistent(old(State())) ==> Consistent(State())
    {
      ghost var before := State();
      var text := pending[0];
      pending := pending[1..];
      var response := Respond(text);
      AddMessage(response, Ai, id);
      if Consistent(before) {
        ResolvedConsistent(before, id);
      }
    }
  }
}
