/** Whole runs of audio requests: which of them keep the prompts of the list first in, first out, and what
    opening one thing over another does to them. */
module PromptOrder {
  import opened AudioRequests
  import opened Helpers

  // ---------------------------------------------------------------------------------------------
  // Whole runs
  // ---------------------------------------------------------------------------------------------

  /** List and player with a record of all prompts accepted, all prompts started and how many were closed. */
  datatype Log = Log(hub: Hub, accepted: seq<Status>, started: seq<Status>, closed: nat)

  /** The prompt a request puts into the list. */
  ghost function Accepted(list: seq<Status>, req: Request): seq<Status> {
    match req
    case Open(e, _) => if e.Playback() && AppendTo(list, e).1 then [e] else []
    case Queue(audId) => if AppendTo(list, Queued(audId)).1 then [Queued(audId)] else []
    case _ => []
  }

  ghost function Do(isolated: bool, s: Log, req: Request): (t: Log)
    requires Running(s.hub.playing)
    ensures Running(t.hub.playing)
  {
    var (hub, started) := Handle(isolated, s.hub, req);
    Log(hub,
        s.accepted + Accepted(s.hub.list, req),
        s.started + (if started.Some? && started.value.Playback() then [started.value] else []),
        s.closed + (if req.Close? && req.e.Playback() && HasPrompt(s.hub.list) then 1 else 0))
  }

  const EMPTY := Log(Hub([], INVALID), [], [], 0)

  ghost function Run(isolated: bool, reqs: seq<Request>): (s: Log)
    ensures Running(s.hub.playing)
  {
    if reqs == [] then EMPTY else Do(isolated, Run(isolated, reqs[..|reqs| - 1]), reqs[|reqs| - 1])
  }

  /** In every reachable state streams come before prompts, at most one incoming-call prompt and three
      others wait, and the list fits the pool. */
  lemma {:induction false} RunWellFormed(isolated: bool, reqs: seq<Request>)
    ensures WellFormed(Run(isolated, reqs).hub.list)
  {
    hide WellFormed, Handle;
    if reqs == [] {
      EmptyWellFormed();
    } else {
      RunWellFormed(isolated, reqs[..|reqs| - 1]);
      HandleKeeps(isolated, Run(isolated, reqs[..|reqs| - 1]).hub, reqs[|reqs| - 1]);
    }
  }

  /** The list holds the prompts accepted and not yet closed; started are all closed ones and the one
      that is first in the list now. */
  ghost predicate InTurn(prompts: seq<Status>, accepted: seq<Status>, started: seq<Status>, closed: nat) {
    && closed <= |accepted| && prompts == accepted[closed..]
    && started == accepted[..Min(closed + 1, |accepted|)]
  }

  /** And with prompts in the list it is a prompt that runs. */
  ghost predicate Fifo(s: Log) {
    && WellFormed(s.hub.list) && InTurn(Prompts(s.hub.list), s.accepted, s.started, s.closed)
    && Running(s.hub.playing) && (s.hub.playing == PLAY_BACK_AUDIO <==> HasPrompt(s.hub.list))
  }

  /** The requests that break the order of prompts: an OPEN that displaces a prompt, that starts a prompt
      over something else with a stream in the list, or whose prompt does not start; an OPEN that clears a
      full list; a CLOSE after which the prompt goes on or the next one does not start; emptying or popping
      from a list with prompts; queueing a prompt with none before it. */
  ghost predicate Disturbs(isolated: bool, h: Hub, req: Request) {
    match req
    case Open(e, hw) => Clears(h.list, e) || Breaks(isolated, h, e, hw)
    case Close(e, stops, hw) => e.Playback() && HasPrompt(h.list) && !PassesOn(isolated, h.list, stops, hw)
    case CloseAll | PopPrompt | Clear => HasPrompt(h.list)
    case Setup | Restart => false
    case Queue(audId) => AppendTo(h.list, Queued(audId)).2
  }

  ghost predicate Breaks(isolated: bool, h: Hub, e: Status, hw: Hw) {
    && AppendTo(h.list, e).2
    && if e.Playback() then !hw.starts || (Displaces(isolated, h.playing, e.id) && (!hw.stops || HasStream(h.list)))
       else Displaces(isolated, h.playing, e.id) && hw.stops && h.playing == PLAY_BACK_AUDIO
  }

  /** The first prompt of the list is closed. If its player stops, the next prompt must start, if there is
      one. If not, it has to stop when what comes next displaces it. */
  ghost predicate PassesOn(isolated: bool, list: seq<Status>, stops: bool, hw: Hw) {
    if stops then |Prompts(list)| > 1 ==> hw.starts
    else if |Prompts(list)| > 1 then !isolated && !HasStream(list) && hw.stops && hw.starts
    else HasStream(list) && list != [] && hw.stops && Displaces(isolated, PLAY_BACK_AUDIO, list[0].id)
  }

  lemma AcceptInTurn(prompts: seq<Status>, accepted: seq<Status>, started: seq<Status>, closed: nat, e: Status)
    requires InTurn(prompts, accepted, started, closed)
    ensures InTurn(prompts + [e], accepted + [e], started + (if prompts == [] then [e] else []), closed)
    ensures prompts == [] ==> !InTurn(prompts + [e], accepted + [e], started, closed)
    ensures !InTurn(prompts, accepted + [e], started, closed) && !InTurn(prompts, accepted + [e], started + [e], closed)
  {
  }

  lemma CloseInTurn(prompts: seq<Status>, accepted: seq<Status>, started: seq<Status>, closed: nat)
    requires InTurn(prompts, accepted, started, closed) && prompts != []
    ensures InTurn(prompts[1..], accepted, started + (if |prompts| > 1 then [prompts[1]] else []), closed + 1)
  {
  }

  /** Prompts that leave the list without being closed break the order. */
  lemma ShorterNotInTurn(prompts: seq<Status>, fewer: seq<Status>, accepted: seq<Status>, started: seq<Status>,
                         more: seq<Status>, closed: nat)
    requires InTurn(prompts, accepted, started, closed) && |fewer| < |prompts|
    ensures !InTurn(fewer, accepted, more, closed)
  {
  }

  /** A prompt that is accepted goes behind the others, and is to be opened when there are none. */
  lemma OpenPrompts(list: seq<Status>, e: Status)
    requires Ordered(list) && !Clears(list, e)
    ensures var (after, accepted, open) := AppendTo(list, e);
            && Ordered(after) && Prompts(after) == Prompts(list) + (if e.Playback() && accepted then [e] else [])
            && (e.Playback() ==> (open <==> accepted && Prompts(list) == []) && (accepted ==> after == list + [e]))
            && (!e.Playback() ==> (open <==> accepted) && (accepted ==> after == [e] + list))
  {
    hide Filtered, Clears, Ordered;
    if e.Playback() {
      AppendPrompt(list, e);
    } else {
      PrependStream(list, e);
    }
  }

  /** Removing for anything but a prompt never opens anything. From the front it keeps all prompts; from
      the tail it keeps them exactly when there is no stream or no prompt. */
  lemma RemoveStreamKeepsPrompts(list: seq<Status>, e: Status, pos: Pos, popNext: bool)
    requires Ordered(list) && !e.Playback()
    ensures var (after, next) := Remove(list, e, pos, popNext);
            && next == None && Ordered(after)
            && (Prompts(after) == Prompts(list) <==> pos == HEAD || !HasStream(list) || !HasPrompt(list))
  {
    if HasStream(list) {
      RemoveFront(list);
      RemoveLast(list);
    }
  }

  /** Removing for a prompt takes the first one out and names the one behind it. */
  lemma RemovePrompts(list: seq<Status>, e: Status, pos: Pos)
    requires Ordered(list) && e.Playback() && HasPrompt(list)
    ensures var (after, next) := Remove(list, e, pos, false);
            && Ordered(after) && Prompts(list) != [] && Prompts(after) == Prompts(list)[1..]
            && (if |Prompts(list)| > 1 then next == Some(Prompts(list)[1]) && next.value.Playback()
                else next.Some? ==> !next.value.Playback())
            && (|Prompts(list)| == 1 ==>
                  if HasStream(list) then list != [] && next == Some(list[0]) else next == None)
  {
    RemoveFirstPrompt(list);
    if HasStream(list) {
      FrontIsNoPrompt(list);
    }
  }

  lemma RemovePromptKeepsStreams(list: seq<Status>, e: Status, pos: Pos)
    requires Ordered(list) && e.Playback() && HasPrompt(list)
    ensures HasStream(Remove(list, e, pos, false).0) <==> HasStream(list)
  {
    var i := FirstPrompt(list);
    var rest := list[..i] + list[i + 1..];
    if HasStream(list) {
      var k :| 0 <= k < |list| && list[k].Stream();
      assert k < i;
      assert rest[k] == list[k];
    }
  }

  lemma PromptsNonEmpty(list: seq<Status>)
    ensures HasPrompt(list) <==> Prompts(list) != []
  {
  }

  /** A prompt shares no bit with any other player. */
  lemma PromptBit(playing: nat)
    requires Running(playing) && playing != INVALID
    ensures SharesBit(PLAY_BACK_AUDIO, playing) <==> playing == PLAY_BACK_AUDIO
  {
  }

  /** An OPEN that only queues: a prompt behind others, or a request refused. */
  lemma QueuedKeepsTurn(s: Log, e: Status)
    requires Fifo(s) && !Clears(s.hub.list, e) && !AppendTo(s.hub.list, e).2
    ensures var (after, accepted, _) := AppendTo(s.hub.list, e);
            && InTurn(Prompts(after), s.accepted + (if e.Playback() && accepted then [e] else []), s.started, s.closed)
            && (HasPrompt(after) <==> HasPrompt(s.hub.list))
  {
    OpenPrompts(s.hub.list, e);
    PromptsNonEmpty(s.hub.list);
    PromptsNonEmpty(AppendTo(s.hub.list, e).0);
    AcceptInTurn(Prompts(s.hub.list), s.accepted, s.started, s.closed, e);
    hide AppendTo, InTurn, Clears, WellFormed, HasPrompt, Prompts;
    assert s.accepted + [] == s.accepted && s.started + [] == s.started;
    assert Prompts(s.hub.list) + [] == Prompts(s.hub.list);
  }

  /** A prompt that is opened with nothing in its way. */
  lemma PromptStarts(isolated: bool, h: Hub, e: Status, hw: Hw)
    requires Ordered(h.list) && Running(h.playing) && h.playing != PLAY_BACK_AUDIO && !HasPrompt(h.list)
    requires e.Playback() && !Clears(h.list, e) && AppendTo(h.list, e).2 && !Breaks(isolated, h, e, hw)
    ensures StreamOpen(isolated, h.(list := AppendTo(h.list, e).0), e, hw) == (Hub(h.list + [e], e.id), true)
  {
    OpenPrompts(h.list, e);
    if h.playing != INVALID {
      PromptBit(h.playing);
      hide AppendTo, Clears, SharesBit, HasPrompt, Ordered;
      assert Displaces(isolated, h.playing, e.id);
      NoStreamAppended(h.list, e);
    }
  }

  lemma NoStreamAppended(list: seq<Status>, e: Status)
    requires !HasStream(list) && e.Playback()
    ensures !HasStream(list + [e])
  {
  }

  /** A stream that is opened while no prompt runs: whatever it displaces, there is no prompt to lose. */
  lemma StreamStarts(isolated: bool, h: Hub, e: Status, hw: Hw)
    requires Ordered(h.list) && Running(h.playing) && !e.Playback() && !Clears(h.list, e) && AppendTo(h.list, e).2
    requires (h.playing == PLAY_BACK_AUDIO <==> HasPrompt(h.list)) && !Breaks(isolated, h, e, hw)
    ensures var (after, started) := StreamOpen(isolated, h.(list := AppendTo(h.list, e).0), e, hw);
            && Prompts(after.list) == Prompts(h.list)
            && (after.playing == PLAY_BACK_AUDIO <==> h.playing == PLAY_BACK_AUDIO)
  {
    OpenPrompts(h.list, e);
    var l := [e] + h.list;
    PromptsNonEmpty(h.list);
    PromptsNonEmpty(l);
    hide AppendTo, Clears, SharesBit, Ordered, Prompts, HasPrompt;
    if Displaces(isolated, h.playing, e.id) && hw.stops {
      RemoveStreamKeepsPrompts(l, Id(ClosedId(isolated, h.playing)), TAIL, false);
    }
  }

  /** An OPEN that displaces a prompt is not for a prompt itself, so none runs any more. */
  lemma DisplacedPromptStops(isolated: bool, h: Hub, e: Status, hw: Hw)
    requires Ordered(h.list) && h.playing == PLAY_BACK_AUDIO && HasPrompt(h.list) && !Clears(h.list, e)
    requires AppendTo(h.list, e).2 && Displaces(isolated, h.playing, e.id) && hw.stops
    ensures !e.Playback()
    ensures StreamOpen(isolated, h.(list := AppendTo(h.list, e).0), e, hw).0.playing != PLAY_BACK_AUDIO
  {
    OpenPrompts(h.list, e);
    hide AppendTo, Clears, SharesBit, Ordered, Remove;
  }

  /** A prompt that displaces something else with a stream in the list is itself what the list loses; one
      that does not get to run stays in it. */
  lemma PromptLostOrSilent(isolated: bool, h: Hub, e: Status, hw: Hw)
    requires Ordered(h.list) && Running(h.playing) && h.playing != PLAY_BACK_AUDIO && !HasPrompt(h.list)
    requires e.Playback() && !Clears(h.list, e) && Breaks(isolated, h, e, hw)
    ensures var after := StreamOpen(isolated, h.(list := AppendTo(h.list, e).0), e, hw).0;
            after.list == h.list || (after.playing != PLAY_BACK_AUDIO && after.list == h.list + [e])
  {
    OpenPrompts(h.list, e);
    var l := h.list + [e];
    assert l[..|l| - 1] == h.list;
    if HasStream(h.list) {
      var k :| 0 <= k < |h.list| && h.list[k].Stream();
      assert l[k].Stream();
    } else {
      NoStreamAppended(h.list, e);
    }
    hide AppendTo, Clears, SharesBit, Ordered, Prompts, HasPrompt, FirstPrompt, HasStream;
  }

  /** Clearing a full list leaves at most the new prompt of all that waited. */
  lemma ClearingLoses(isolated: bool, s: Log, e: Status, hw: Hw)
    requires Fifo(s) && Clears(s.hub.list, e)
    ensures !Fifo(Do(isolated, s, Open(e, hw)))
  {
    PromptsNonEmpty(s.hub.list);
    var t := Do(isolated, s, Open(e, hw));
    assert |t.hub.list| <= 1 && |Prompts(t.hub.list)| <= 1;
    assert t.accepted == s.accepted + [e] && t.closed == s.closed;
    hide Do, WellFormed, Clears, Prompts, HasPrompt;
  }

  lemma OpenStep(isolated: bool, s: Log, e: Status, hw: Hw)
    requires Fifo(s) && WellFormed(Do(isolated, s, Open(e, hw)).hub.list)
    ensures Fifo(Do(isolated, s, Open(e, hw))) <==> !Disturbs(isolated, s.hub, Open(e, hw))
  {
    var h, t := s.hub, Do(isolated, s, Open(e, hw));
    if Clears(h.list, e) {
      ClearingLoses(isolated, s, e, hw);
    } else if !AppendTo(h.list, e).2 {
      QueuedKeepsTurn(s, e);
      hide WellFormed, InTurn, AppendTo, Prompts, HasPrompt, Clears;
      assert t.started == s.started;
    } else if !Breaks(isolated, h, e, hw) {
      OpenedKeepsTurn(isolated, s, e, hw);
    } else {
      BreakingLosesTurn(isolated, s, e, hw);
    }
  }

  lemma OpenedKeepsTurn(isolated: bool, s: Log, e: Status, hw: Hw)
    requires Fifo(s) && !Clears(s.hub.list, e) && AppendTo(s.hub.list, e).2 && !Breaks(isolated, s.hub, e, hw)
    requires WellFormed(Do(isolated, s, Open(e, hw)).hub.list)
    ensures Fifo(Do(isolated, s, Open(e, hw)))
  {
    hide WellFormed, InTurn, AppendTo, Prompts, HasPrompt, Clears, Breaks, StreamOpen, Do;
    if e.Playback() {
      OpenedPromptInTurn(isolated, s, e, hw);
    } else {
      OpenedStreamInTurn(isolated, s, e, hw);
    }
  }

  lemma OpenedPromptInTurn(isolated: bool, s: Log, e: Status, hw: Hw)
    requires Fifo(s) && e.Playback() && !Clears(s.hub.list, e) && AppendTo(s.hub.list, e).2
    requires !Breaks(isolated, s.hub, e, hw) && WellFormed(Do(isolated, s, Open(e, hw)).hub.list)
    ensures Fifo(Do(isolated, s, Open(e, hw)))
  {
    var h := s.hub;
    OpenPrompts(h.list, e);
    PromptsNonEmpty(h.list);
    AcceptInTurn(Prompts(h.list), s.accepted, s.started, s.closed, e);
    PromptStarts(isolated, h, e, hw);
    PromptsNonEmpty(h.list + [e]);
    hide WellFormed, InTurn, AppendTo, Prompts, HasPrompt, Clears, Breaks, StreamOpen;
  }

  lemma OpenedStreamInTurn(isolated: bool, s: Log, e: Status, hw: Hw)
    requires Fifo(s) && !e.Playback() && !Clears(s.hub.list, e) && AppendTo(s.hub.list, e).2
    requires !Breaks(isolated, s.hub, e, hw) && WellFormed(Do(isolated, s, Open(e, hw)).hub.list)
    ensures Fifo(Do(isolated, s, Open(e, hw)))
  {
    StreamStarts(isolated, s.hub, e, hw);
    PromptsNonEmpty(s.hub.list);
    PromptsNonEmpty(Do(isolated, s, Open(e, hw)).hub.list);
    hide WellFormed, InTurn, AppendTo, Prompts, HasPrompt, Clears, Breaks, StreamOpen;
    assert s.accepted + [] == s.accepted && s.started + [] == s.started;
  }

  lemma BreakingLosesTurn(isolated: bool, s: Log, e: Status, hw: Hw)
    requires Fifo(s) && !Clears(s.hub.list, e) && Breaks(isolated, s.hub, e, hw)
    ensures !Fifo(Do(isolated, s, Open(e, hw)))
  {
    var h, t := s.hub, Do(isolated, s, Open(e, hw));
    OpenPrompts(h.list, e);
    PromptsNonEmpty(h.list);
    AcceptInTurn(Prompts(h.list), s.accepted, s.started, s.closed, e);
    hide WellFormed, InTurn, AppendTo, Prompts, HasPrompt, Clears, StreamOpen, Displaces, HasStream;
    PromptsNonEmpty(t.hub.list);
    if !e.Playback() {
      DisplacedPromptStops(isolated, h, e, hw);
      assert s.accepted + [] == s.accepted;
      if Prompts(t.hub.list) == [] {
        ShorterNotInTurn(Prompts(h.list), [], s.accepted, s.started, t.started, s.closed);
      }
    } else {
      PromptLostOrSilent(isolated, h, e, hw);
      assert s.started + [] == s.started;
    }
  }

  /** What `app_bt_stream_open` makes of the next request once a prompt has left the list, when its player
      has stopped. */
  lemma NextStarts(isolated: bool, list: seq<Status>, next: Status, hw: Hw)
    ensures var (after, started) := StreamOpen(isolated, Hub(list, INVALID), next, hw);
            && after.list == list
            && (next.Playback() ==> if hw.starts then started && after.playing == PLAY_BACK_AUDIO
                                    else !started && after.playing == INVALID)
            && (!next.Playback() ==> after.playing != PLAY_BACK_AUDIO)
  {
  }

  /** And when it goes on: a prompt that comes next. */
  lemma NextPromptStarts(isolated: bool, list: seq<Status>, next: Status, hw: Hw)
    requires Ordered(list) && HasPrompt(list) && next.Playback()
    ensures var (after, started) := StreamOpen(isolated, Hub(list, PLAY_BACK_AUDIO), next, hw);
            if isolated || !hw.stops then after == Hub(list, PLAY_BACK_AUDIO) && !started
            else
              && (HasStream(list) ==> |Prompts(after.list)| < |Prompts(list)|)
              && (!HasStream(list) ==> after.list == list)
              && (if hw.starts then started && after.playing == PLAY_BACK_AUDIO
                  else !started && after.playing == INVALID)
  {
    if HasStream(list) {
      FrontIsNoPrompt(list);
      RemoveLast(list);
    }
    PromptsNonEmpty(list);
    hide Ordered, Prompts, HasPrompt, FirstPrompt, HasStream;
  }

  /** A stream that comes next, with no prompt left. */
  lemma NextStreamStarts(isolated: bool, list: seq<Status>, next: Status, hw: Hw)
    requires Ordered(list) && !HasPrompt(list) && !next.Playback()
    ensures var (after, started) := StreamOpen(isolated, Hub(list, PLAY_BACK_AUDIO), next, hw);
            && Prompts(after.list) == Prompts(list)
            && (after.playing != PLAY_BACK_AUDIO <==> Displaces(isolated, PLAY_BACK_AUDIO, next.id) && hw.stops)
  {
    var was := Id(ClosedId(isolated, PLAY_BACK_AUDIO));
    if !isolated {
      RemoveStreamKeepsPrompts(list, was, TAIL, false);
    }
    if next.Player() {
      PromptBit(next.id);
    }
    hide Ordered, Prompts, HasStream;
  }

  /** The prompts are in turn, and one runs exactly when there are any. */
  ghost predicate InTurnAndRunning(h: Hub, accepted: seq<Status>, started: seq<Status>, closed: nat) {
    InTurn(Prompts(h.list), accepted, started, closed) && (h.playing == PLAY_BACK_AUDIO <==> HasPrompt(h.list))
  }

  lemma NextPrompt(isolated: bool, prompts: seq<Status>, accepted: seq<Status>, started: seq<Status>, closed: nat,
                   list: seq<Status>, stops: bool, hw: Hw)
    requires InTurn(prompts, accepted, started, closed) && |prompts| > 1 && prompts[1].Playback()
    requires Ordered(list) && Prompts(list) == prompts[1..]
    ensures var h := Hub(list, if stops then INVALID else PLAY_BACK_AUDIO);
            var (after, ok) := StreamOpen(isolated, h, prompts[1], hw);
            InTurnAndRunning(after, accepted, started + (if ok then [prompts[1]] else []), closed + 1)
            <==> if stops then hw.starts else !isolated && !HasStream(list) && hw.stops && hw.starts
  {
    var h := Hub(list, if stops then INVALID else PLAY_BACK_AUDIO);
    var (after, ok) := StreamOpen(isolated, h, prompts[1], hw);
    PromptsNonEmpty(list);
    CloseInTurn(prompts, accepted, started, closed);
    NotStartedNotInTurn(prompts, accepted, started, closed);
    if stops {
      NextStarts(isolated, list, prompts[1], hw);
    } else {
      NextPromptStarts(isolated, list, prompts[1], hw);
      if |Prompts(after.list)| < |Prompts(list)| {
        var more := started + if ok then [prompts[1]] else [];
        LostNotInTurn(prompts, Prompts(after.list), accepted, started, more, closed);
      }
    }
    hide InTurn, Prompts, HasPrompt, HasStream, StreamOpen, Ordered;
    assert started + [] == started;
  }

  lemma NextNoPrompt(isolated: bool, prompts: seq<Status>, accepted: seq<Status>, started: seq<Status>, closed: nat,
                     list: seq<Status>, next: Status, stops: bool, hw: Hw)
    requires InTurn(prompts, accepted, started, closed) && |prompts| == 1 && !next.Playback()
    requires Ordered(list) && Prompts(list) == []
    ensures InTurnAndRunning(Hub(list, if stops then INVALID else PLAY_BACK_AUDIO), accepted, started, closed + 1)
            <==> stops
    ensures var h := Hub(list, if stops then INVALID else PLAY_BACK_AUDIO);
            InTurnAndRunning(StreamOpen(isolated, h, next, hw).0, accepted, started, closed + 1)
            <==> stops || (hw.stops && Displaces(isolated, PLAY_BACK_AUDIO, next.id))
  {
    CloseInTurn(prompts, accepted, started, closed);
    assert started + [] == started;
    PromptsNonEmpty(list);
    var h := Hub(list, if stops then INVALID else PLAY_BACK_AUDIO);
    PromptsNonEmpty(StreamOpen(isolated, h, next, hw).0.list);
    if stops {
      NextStarts(isolated, list, next, hw);
    } else {
      NextStreamStarts(isolated, list, next, hw);
    }
    hide InTurn, Prompts, HasPrompt, HasStream, StreamOpen, Ordered, Displaces;
  }

  lemma CloseIs(isolated: bool, s: Log, e: Status, stops: bool, hw: Hw)
    requires s.hub.playing == PLAY_BACK_AUDIO && e.Playback() && HasPrompt(s.hub.list)
    ensures var (list, next) := Remove(s.hub.list, e, HEAD, false);
            var h, t := Hub(list, if stops then INVALID else PLAY_BACK_AUDIO), Do(isolated, s, Close(e, stops, hw));
            && t.accepted == s.accepted && t.closed == s.closed + 1
            && (next.None? ==> t.hub == h && t.started == s.started)
            && (next.Some? ==>
                  var (after, ok) := StreamOpen(isolated, h, next.value, hw);
                  && t.hub == after
                  && t.started == s.started + (if ok && next.value.Playback() then [next.value] else []))
  {
    hide Remove, StreamOpen, HasPrompt;
    assert s.accepted + [] == s.accepted && s.started + [] == s.started;
  }

  lemma FifoIs(s: Log)
    requires WellFormed(s.hub.list) && Running(s.hub.playing)
    ensures Fifo(s) <==> InTurnAndRunning(s.hub, s.accepted, s.started, s.closed)
  {
  }

  lemma ClosePromptMore(isolated: bool, s: Log, e: Status, stops: bool, hw: Hw)
    requires Fifo(s) && e.Playback() && HasPrompt(s.hub.list) && |Prompts(s.hub.list)| > 1
    ensures var t := Do(isolated, s, Close(e, stops, hw));
            InTurnAndRunning(t.hub, t.accepted, t.started, t.closed) <==> PassesOn(isolated, s.hub.list, stops, hw)
  {
    hide InTurn, Prompts, HasPrompt, Remove, StreamOpen, Displaces, HasStream, Do, InTurnAndRunning, OneIncoming,
      Others, Ordered;
    var list, prompts := s.hub.list, Prompts(s.hub.list);
    var rest := Remove(list, e, HEAD, false).0;
    CloseIs(isolated, s, e, stops, hw);
    RemovePrompts(list, e, HEAD);
    RemovePromptKeepsStreams(list, e, HEAD);
    NextPrompt(isolated, prompts, s.accepted, s.started, s.closed, rest, stops, hw);
  }

  lemma ClosePromptLast(isolated: bool, s: Log, e: Status, stops: bool, hw: Hw)
    requires Fifo(s) && e.Playback() && HasPrompt(s.hub.list) && |Prompts(s.hub.list)| <= 1
    ensures var t := Do(isolated, s, Close(e, stops, hw));
            InTurnAndRunning(t.hub, t.accepted, t.started, t.closed) <==> PassesOn(isolated, s.hub.list, stops, hw)
  {
    hide InTurn, Prompts, HasPrompt, Remove, StreamOpen, Displaces, HasStream, Do, InTurnAndRunning, OneIncoming,
      Others, Ordered;
    var list, prompts := s.hub.list, Prompts(s.hub.list);
    var (rest, next) := Remove(list, e, HEAD, false);
    CloseIs(isolated, s, e, stops, hw);
    RemovePrompts(list, e, HEAD);
    var any := if next.Some? then next.value else MUSIC;
    NextNoPrompt(isolated, prompts, s.accepted, s.started, s.closed, rest, any, stops, hw);
    assert s.started + [] == s.started;
  }

  lemma ClosePromptStep(isolated: bool, s: Log, e: Status, stops: bool, hw: Hw)
    requires Fifo(s) && e.Playback() && HasPrompt(s.hub.list)
    requires WellFormed(Do(isolated, s, Close(e, stops, hw)).hub.list)
    ensures Fifo(Do(isolated, s, Close(e, stops, hw))) <==> PassesOn(isolated, s.hub.list, stops, hw)
  {
    FifoIs(Do(isolated, s, Close(e, stops, hw)));
    hide InTurnAndRunning, PassesOn, Do, WellFormed, InTurn, HasPrompt;
    if |Prompts(s.hub.list)| > 1 {
      ClosePromptMore(isolated, s, e, stops, hw);
    } else {
      ClosePromptLast(isolated, s, e, stops, hw);
    }
  }

  lemma NotStartedNotInTurn(prompts: seq<Status>, accepted: seq<Status>, started: seq<Status>, closed: nat)
    requires InTurn(prompts, accepted, started, closed)
    ensures |prompts| > 1 ==> !InTurn(prompts[1..], accepted, started, closed + 1)
  {
  }

  lemma LostNotInTurn(prompts: seq<Status>, fewer: seq<Status>, accepted: seq<Status>, started: seq<Status>,
                      more: seq<Status>, closed: nat)
    requires InTurn(prompts, accepted, started, closed) && |fewer| + 1 < |prompts|
    ensures !InTurn(fewer, accepted, more, closed + 1)
  {
  }

  lemma CloseStreamStep(isolated: bool, s: Log, e: Status, stops: bool, hw: Hw)
    requires Fifo(s) && !e.Playback() && WellFormed(Do(isolated, s, Close(e, stops, hw)).hub.list)
    ensures Fifo(Do(isolated, s, Close(e, stops, hw)))
  {
    var h, t := s.hub, Do(isolated, s, Close(e, stops, hw));
    PromptsNonEmpty(h.list);
    PromptsNonEmpty(t.hub.list);
    RemoveStreamKeepsPrompts(h.list, e, HEAD, false);
    assert s.accepted + [] == s.accepted && s.started + [] == s.started;
    hide WellFormed, InTurn, Prompts, HasPrompt, Remove, StreamOpen;
  }

  /** Closing a prompt starts the next one; closing anything else leaves the prompts alone. */
  lemma CloseStep(isolated: bool, s: Log, e: Status, stops: bool, hw: Hw)
    requires Fifo(s) && WellFormed(Do(isolated, s, Close(e, stops, hw)).hub.list)
    ensures Fifo(Do(isolated, s, Close(e, stops, hw))) <==> !Disturbs(isolated, s.hub, Close(e, stops, hw))
  {
    if !e.Playback() {
      CloseStreamStep(isolated, s, e, stops, hw);
    } else if HasPrompt(s.hub.list) {
      ClosePromptStep(isolated, s, e, stops, hw);
    } else {
      assert s.accepted + [] == s.accepted && s.started + [] == s.started;
    }
  }

  lemma QueueStep(isolated: bool, s: Log, audId: nat)
    requires Fifo(s) && WellFormed(Do(isolated, s, Queue(audId)).hub.list)
    ensures Fifo(Do(isolated, s, Queue(audId))) <==> !Disturbs(isolated, s.hub, Queue(audId))
  {
    var h, t, e := s.hub, Do(isolated, s, Queue(audId)), Queued(audId);
    assert s.started + [] == s.started;
    if Clears(h.list, e) {
      PromptsNonEmpty(h.list);
      assert t.hub.list == [e] && t.accepted == s.accepted + [e] && |Prompts(t.hub.list)| <= 1;
    } else if !AppendTo(h.list, e).2 {
      QueuedKeepsTurn(s, e);
    } else {
      OpenPrompts(h.list, e);
      PromptsNonEmpty(h.list);
      AcceptInTurn(Prompts(h.list), s.accepted, s.started, s.closed, e);
    }
  }

  /** Emptying the list, or popping a prompt from it, is harmless only without prompts. */
  lemma DropStep(isolated: bool, s: Log, req: Request)
    requires Fifo(s) && (req.CloseAll? || req.Clear? || req.PopPrompt?)
    requires WellFormed(Do(isolated, s, req).hub.list)
    ensures Fifo(Do(isolated, s, req)) <==> !Disturbs(isolated, s.hub, req)
  {
    var t := Do(isolated, s, req);
    PromptsNonEmpty(s.hub.list);
    PromptsNonEmpty(t.hub.list);
    assert s.accepted + [] == s.accepted && s.started + [] == s.started;
    assert Prompts([]) == [];
    if HasPrompt(s.hub.list) {
      RemoveFirstPrompt(s.hub.list);
      ShorterNotInTurn(Prompts(s.hub.list), Prompts(t.hub.list), s.accepted, s.started, t.started, s.closed);
    }
  }

  lemma NothingDone(isolated: bool, s: Log, req: Request)
    requires Running(s.hub.playing) && (req.Setup? || req.Restart?)
    ensures Do(isolated, s, req) == s
  {
    assert s.accepted + [] == s.accepted && s.started + [] == s.started;
  }

  lemma StepIsFifo(isolated: bool, s: Log, req: Request)
    requires Fifo(s)
    ensures Fifo(Do(isolated, s, req)) <==> !Disturbs(isolated, s.hub, req)
  {
    HandleKeeps(isolated, s.hub, req);
    hide WellFormed, InTurn, Disturbs, Handle;
    assert WellFormed(Do(isolated, s, req).hub.list);
    match req {
      case Open(e, hw) => OpenStep(isolated, s, e, hw);
      case Close(e, stops, hw) => CloseStep(isolated, s, e, stops, hw);
      case Queue(audId) => QueueStep(isolated, s, audId);
      case Setup | Restart => NothingDone(isolated, s, req);
      case _ => DropStep(isolated, s, req);
    }
  }

  ghost predicate FifoThroughout(isolated: bool, reqs: seq<Request>) {
    forall k | 0 <= k <= |reqs| :: Fifo(Run(isolated, reqs[..k]))
  }

  ghost predicate Undisturbed(isolated: bool, reqs: seq<Request>) {
    forall k | 0 <= k < |reqs| :: !Disturbs(isolated, Run(isolated, reqs[..k]).hub, reqs[k])
  }

  lemma EmptyFifo()
    ensures Fifo(EMPTY)
  {
    EmptyWellFormed();
  }

  lemma RunSnoc(isolated: bool, reqs: seq<Request>, k: nat)
    requires k < |reqs|
    ensures Run(isolated, reqs[..k + 1]) == Do(isolated, Run(isolated, reqs[..k]), reqs[k])
  {
    assert reqs[..k + 1][..k] == reqs[..k];
  }

  lemma {:induction false} FifoUpTo(isolated: bool, reqs: seq<Request>, k: nat)
    requires Undisturbed(isolated, reqs) && k <= |reqs|
    ensures Fifo(Run(isolated, reqs[..k]))
  {
    hide Fifo, Do, Disturbs;
    if k == 0 {
      EmptyFifo();
    } else {
      FifoUpTo(isolated, reqs, k - 1);
      RunSnoc(isolated, reqs, k - 1);
      StepIsFifo(isolated, Run(isolated, reqs[..k - 1]), reqs[k - 1]);
    }
  }

  /** Prompts start one at a time, in the order they were accepted, with the first one in the list
      running, at every moment of a run if and only if no request of it disturbs them. */
  lemma PromptsAreFifo(isolated: bool, reqs: seq<Request>)
    ensures FifoThroughout(isolated, reqs) <==> Undisturbed(isolated, reqs)
  {
    hide Fifo, Do, Disturbs, Run;
    if Undisturbed(isolated, reqs) {
      forall k | 0 <= k <= |reqs|
        ensures Fifo(Run(isolated, reqs[..k]))
      {
        FifoUpTo(isolated, reqs, k);
      }
    }
    if FifoThroughout(isolated, reqs) {
      forall k | 0 <= k < |reqs|
        ensures !Disturbs(isolated, Run(isolated, reqs[..k]).hub, reqs[k])
      {
        assert Fifo(Run(isolated, reqs[..k])) && Fifo(Run(isolated, reqs[..k + 1]));
        RunSnoc(isolated, reqs, k);
        StepIsFifo(isolated, Run(isolated, reqs[..k]), reqs[k]);
      }
    }
  }

  lemma FirstInTurn(prompts: seq<Status>, accepted: seq<Status>, started: seq<Status>, closed: nat)
    requires InTurn(prompts, accepted, started, closed) && prompts != []
    ensures started != [] && prompts[0] == started[|started| - 1] && accepted == started + prompts[1..]
  {
  }

  /** The first prompt in the list is the one running, started last; those behind it have not been
      started. */
  lemma FirstPromptIsOpen(isolated: bool, reqs: seq<Request>)
    requires Undisturbed(isolated, reqs) && HasPrompt(Run(isolated, reqs).hub.list)
    ensures var (s, prompts) := (Run(isolated, reqs), Prompts(Run(isolated, reqs).hub.list));
            && s.hub.playing == PLAY_BACK_AUDIO
            && prompts != [] && s.started != [] && prompts[0] == s.started[|s.started| - 1]
            && s.accepted == s.started + prompts[1..]
  {
    hide Run, WellFormed, InTurn;
    FifoUpTo(isolated, reqs, |reqs|);
    assert reqs[..|reqs|] == reqs;
    var s := Run(isolated, reqs);
    PromptsNonEmpty(s.hub.list);
    FirstInTurn(Prompts(s.hub.list), s.accepted, s.started, s.closed);
  }

  // ---------------------------------------------------------------------------------------------
  // What displacement does
  // ---------------------------------------------------------------------------------------------

  /** A2DP music, and a prompt. */
  const MUSIC := Id(8)
  const PROMPT := Id(PLAY_BACK_AUDIO)
  const LOOP := Id(64)

  /** Requests with players that stop and start as they should. */
  function Opens(e: Status): Request {
    Open(e, Hw(true, true))
  }

  function Closes(e: Status): Request {
    Close(e, true, Hw(true, true))
  }

  lemma RunOne(isolated: bool, a: Request)
    ensures Run(isolated, [a]) == Do(isolated, EMPTY, a)
  {
    assert [a][..0] == [];
  }

  lemma RunMore(isolated: bool, reqs: seq<Request>, a: Request)
    ensures Run(isolated, reqs + [a]) == Do(isolated, Run(isolated, reqs), a)
  {
    assert (reqs + [a])[..|reqs|] == reqs;
  }

  lemma FirstOpen(isolated: bool, e: Status)
    requires e.Player() && (e.Playback() ==> e.audId != INCOMING_CALL)
    ensures Run(isolated, [Opens(e)])
            == Log(Hub([e], e.id), if e.Playback() then [e] else [], if e.Playback() then [e] else [], 0)
  {
    RunOne(isolated, Opens(e));
    assert [e] + [] == [e] && [] + [e] == [e];
  }

  lemma PromptOverMusic(isolated: bool)
    ensures AppendTo([MUSIC], PROMPT) == ([MUSIC, PROMPT], true, true)
    ensures StreamOpen(isolated, Hub([MUSIC, PROMPT], 8), PROMPT, Hw(true, true))
            == (Hub([MUSIC], PLAY_BACK_AUDIO), true)
  {
    var list := [MUSIC];
    assert list[0].Stream() && list + [PROMPT] == [MUSIC, PROMPT] && FirstPrompt(list) == 1;
    assert [MUSIC, PROMPT][..1] == list;
  }

  /** A prompt during music runs, but is not in the list any more. */
  lemma PromptDuringMusic(isolated: bool)
    ensures var s := Run(isolated, [Opens(MUSIC), Opens(PROMPT)]);
            && s.hub == Hub([MUSIC], PLAY_BACK_AUDIO) && s.accepted == s.started == [PROMPT] && s.closed == 0
            && !Fifo(s)
  {
    FirstOpen(isolated, MUSIC);
    RunMore(isolated, [Opens(MUSIC)], Opens(PROMPT));
    PromptOverMusic(isolated);
    assert [Opens(MUSIC)] + [Opens(PROMPT)] == [Opens(MUSIC), Opens(PROMPT)] && [] + [PROMPT] == [PROMPT];
    assert FirstPrompt([MUSIC]) == 1;
    hide AppendTo, StreamOpen, Run;
  }

  /** And when it is closed, the music that waits in the list is not started again. */
  lemma MusicNotResumed(isolated: bool)
    ensures Run(isolated, [Opens(MUSIC), Opens(PROMPT), Closes(PROMPT)]).hub == Hub([MUSIC], INVALID)
  {
    PromptDuringMusic(isolated);
    RunMore(isolated, [Opens(MUSIC), Opens(PROMPT)], Closes(PROMPT));
    assert [Opens(MUSIC), Opens(PROMPT)] + [Closes(PROMPT)] == [Opens(MUSIC), Opens(PROMPT), Closes(PROMPT)];
    assert FirstPrompt([MUSIC]) == 1;
  }

  /** Music during a prompt takes the prompt out of the list without a CLOSE. */
  lemma MusicDuringPrompt(isolated: bool)
    ensures var s := Run(isolated, [Opens(PROMPT), Opens(MUSIC)]);
            s.hub == Hub([MUSIC], 8) && s.accepted == [PROMPT] && s.closed == 0 && !Fifo(s)
  {
    FirstOpen(isolated, PROMPT);
    RunMore(isolated, [Opens(PROMPT)], Opens(MUSIC));
    var l := [MUSIC, PROMPT];
    assert [MUSIC] + [PROMPT] == l && l[1..] == [PROMPT];
    assert FirstPrompt(l) == 1 && l[..1] + l[2..] == [MUSIC];
    assert FirstPrompt([MUSIC]) == 1;
  }

  /** A prompt that does not start stays first in the list, and later ones wait behind it in silence. */
  lemma FailedPromptBlocks(isolated: bool, hw: Hw)
    requires !hw.starts
    ensures var s := Run(isolated, [Open(PROMPT, hw), Opens(PROMPT)]);
            s.hub == Hub([PROMPT, PROMPT], INVALID) && s.started == [] && s.closed == 0
  {
    RunOne(isolated, Open(PROMPT, hw));
    RunMore(isolated, [Open(PROMPT, hw)], Opens(PROMPT));
    assert [Open(PROMPT, hw)] + [Opens(PROMPT)] == [Open(PROMPT, hw), Opens(PROMPT)];
    assert [] + [PROMPT] == [PROMPT] && [PROMPT] + [PROMPT] == [PROMPT, PROMPT];
    hide Run;
  }

  /** Music over the first of two prompts: without isolated streams the list loses the second prompt and
      keeps the one that was cut off. */
  lemma DisplacedPromptStays(isolated: bool, p: Status, q: Status)
    requires p.Playback() && q.Playback()
    ensures Handle(isolated, Hub([p, q], PLAY_BACK_AUDIO), Opens(MUSIC))
         == (Hub([MUSIC, if isolated then q else p], 8), Some(MUSIC))
  {
    var l := [MUSIC, p, q];
    assert [MUSIC] + [p, q] == l && l[0].Stream();
    assert FirstPrompt(l[1..]) == 0 && FirstPrompt(l) == 1;
    assert l[..1] + l[2..] == [MUSIC, q] && l[..2] == [MUSIC, p];
  }

  /** A prompt other than the incoming-call one is refused by the number of entries of any kind. */
  lemma RefusedByEntries(list: seq<Status>, e: Status)
    requires e.Playback() && e.audId != INCOMING_CALL
    ensures !AppendTo(list, e).1 <==> |list| >= 3
  {
    hide HasStream, HasPrompt;
  }

  lemma LoopAgain(isolated: bool, s: Log)
    requires s.hub.playing == LOOP.id && !HasStream(s.hub.list) && |s.hub.list| < POOL_SIZE
    ensures Do(isolated, s, Opens(LOOP)).hub == Hub([LOOP] + s.hub.list, LOOP.id) && !HasStream([LOOP] + s.hub.list)
  {
  }

  lemma ThreeLoops(isolated: bool)
    ensures Run(isolated, [Opens(LOOP), Opens(LOOP), Opens(LOOP)]).hub.list == [LOOP, LOOP, LOOP]
  {
    hide Run, Do, AppendTo, HasStream;
    FirstOpen(isolated, LOOP);
    RunMore(isolated, [Opens(LOOP)], Opens(LOOP));
    RunMore(isolated, [Opens(LOOP), Opens(LOOP)], Opens(LOOP));
    NoStreamInLoop();
    LoopAgain(isolated, Run(isolated, [Opens(LOOP)]));
    assert [Opens(LOOP)] + [Opens(LOOP)] == [Opens(LOOP), Opens(LOOP)] && [LOOP] + [LOOP] == [LOOP, LOOP];
    LoopAgain(isolated, Run(isolated, [Opens(LOOP), Opens(LOOP)]));
    assert [Opens(LOOP), Opens(LOOP)] + [Opens(LOOP)] == [Opens(LOOP), Opens(LOOP), Opens(LOOP)];
    assert [LOOP] + [LOOP, LOOP] == [LOOP, LOOP, LOOP];
  }

  /** So three requests for the factory loop are enough, with no prompt waiting at all. */
  lemma PromptRefusedWithoutPrompts(isolated: bool)
    ensures var list := Run(isolated, [Opens(LOOP), Opens(LOOP), Opens(LOOP)]).hub.list;
            list == [LOOP, LOOP, LOOP] && !HasPrompt(list) && !AppendTo(list, PROMPT).1
  {
    hide Run, AppendTo;
    ThreeLoops(isolated);
    RefusedByEntries([LOOP, LOOP, LOOP], PROMPT);
    FirstPromptIs([LOOP, LOOP, LOOP], 3);
  }

  lemma NoStreamInLoop()
    ensures !HasStream([LOOP])
  {
  }
}
