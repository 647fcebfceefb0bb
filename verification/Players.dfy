/** Which player runs: what each request does to it, and over whole runs that whatever runs was started and
    has not been stopped or displaced since. */
module Players {
  import opened AudioRequests
  import opened PromptOrder
  import opened Helpers

  // ---------------------------------------------------------------------------------------------
  // Which player gives way to which
  // ---------------------------------------------------------------------------------------------

  /** The ids of HFP and A2DP streams, the factory loop and prompts. */
  predicate PlayerId(id: nat) {
    id == 1 || id == 2 || id == 4 || id == 8 || id == 16 || id == 32 || id == 64 || id == 128
  }

  lemma PlayersById(e: Status)
    ensures e.Player() <==> PlayerId(e.id)
    ensures e.Stream() <==> PlayerId(e.id) && e.id < 64
    ensures e.Playback() <==> e.id == 128
  {
  }

  /** With isolated streams a player gives way to any other, without to the same one as well; an input
      stream displaces none of the isolated ones. */
  lemma WhoGivesWay(isolated: bool, playing: nat, id: nat)
    requires PlayerId(playing)
    ensures PlayerId(id) ==> (Displaces(isolated, playing, id) <==> !isolated || id != playing)
    ensures id >= 4096 ==> (Displaces(isolated, playing, id) <==> !isolated)
    ensures !Displaces(isolated, 0, id)
  {
  }

  // ---------------------------------------------------------------------------------------------
  // The list, by ids
  // ---------------------------------------------------------------------------------------------

  ghost predicate PromptListed(list: seq<Status>) {
    exists i | 0 <= i < |list| :: list[i].id == 128
  }

  /** The prompt of an incoming call has audio id 21. */
  ghost predicate CallListed(list: seq<Status>) {
    exists i | 0 <= i < |list| :: list[i].id == 128 && list[i].audId == 21
  }

  ghost predicate StreamListed(list: seq<Status>) {
    exists i | 0 <= i < |list| :: PlayerId(list[i].id) && list[i].id < 64
  }

  ghost predicate Refused(list: seq<Status>, e: Status) {
    e.id == 128 && if e.audId == 21 then CallListed(list) else |list| >= 3
  }

  lemma ListedById(list: seq<Status>)
    ensures HasPrompt(list) <==> PromptListed(list)
    ensures HasIncoming(list) <==> CallListed(list)
    ensures HasStream(list) <==> StreamListed(list)
  {
    if HasPrompt(list) {
      assert list[FirstPrompt(list)].Playback();
    }
    if HasIncoming(list) {
      var i :| 0 <= i < |list| && list[i].Incoming();
      assert list[i].id == 128 && list[i].audId == 21;
    }
    if CallListed(list) {
      var i :| 0 <= i < |list| && list[i].id == 128 && list[i].audId == 21;
      assert list[i].Incoming();
    }
    if HasStream(list) {
      var i :| 0 <= i < |list| && list[i].Stream();
      PlayersById(list[i]);
      assert PlayerId(list[i].id) && list[i].id < 64;
    }
    if StreamListed(list) {
      var i :| 0 <= i < |list| && PlayerId(list[i].id) && list[i].id < 64;
      PlayersById(list[i]);
      assert list[i].Stream();
    }
  }

  /** What is appended: a prompt at the back, to be opened when it is the only one, anything else at the
      front, to be opened at once. Twenty entries are the most; a prompt that finds as many, prompts among
      them and no stream, takes their place. */
  lemma AppendTable(list: seq<Status>, e: Status)
    ensures var full := |list| >= 20;
            var clears := e.id == 128 && !Refused(list, e) && full && PromptListed(list) && !StreamListed(list);
            AppendTo(list, e)
            == if clears then ([e], true, true)
               else if Refused(list, e) || full then (list, false, false)
               else if e.id == 128 then (list + [e], true, !PromptListed(list))
               else ([e] + list, true, true)
  {
    ListedById(list);
    hide HasPrompt, HasStream, HasIncoming, PromptListed, CallListed, StreamListed;
  }

  /** What is removed: for a prompt the first one, and the prompt behind it comes next or else the front,
      if there is a stream; for anything else an end of the list, if there is a stream, and nothing next. */
  lemma RemoveTable(list: seq<Status>, e: Status, pos: Pos, popNext: bool) returns (i: nat)
    ensures e.id != 128 ==>
              Remove(list, e, pos, popNext)
              == (if list == [] || !StreamListed(list) then list
                  else if pos == HEAD then list[1..] else list[..|list| - 1],
                  None)
    ensures e.id == 128 && !PromptListed(list) ==> Remove(list, e, pos, popNext) == (list, None)
    ensures e.id == 128 && PromptListed(list) ==>
              && i < |list| && list[i].id == 128 && (forall k | 0 <= k < i :: list[k].id != 128)
              && Remove(list, e, pos, popNext)
                 == (list[..i] + list[i + 1..],
                     if popNext then Some(list[i])
                     else if i + 1 < |list| then Some(list[i + 1])
                     else if StreamListed(list) then Some(list[0])
                     else None)
  {
    ListedById(list);
    hide HasStream, StreamListed, PromptListed;
    i := FirstPrompt(list);
    forall k | 0 <= k < i
      ensures list[k].id != 128
    {
      assert !list[k].Playback();
    }
  }

  // ---------------------------------------------------------------------------------------------
  // One request
  // ---------------------------------------------------------------------------------------------

  /** The request that is to be opened: an OPEN that goes in first of its kind, or what comes next after
      a CLOSE. */
  ghost function ToOpen(list: seq<Status>, req: Request): Option<Status> {
    match req
    case Open(e, _) => if AppendTo(list, e).2 then Some(e) else None
    case Close(e, _, _) => Remove(list, e, HEAD, false).1
    case _ => None
  }

  /** A request stops player `p` of its own: CLOSEALL, or its CLOSE, if it stops. */
  predicate Stops(req: Request, p: nat) {
    req.CloseAll? || (req.Close? && req.e.id == p && req.stops)
  }

  /** What is to be opened displaces player `p`, which stops for it. */
  ghost predicate GivesWay(isolated: bool, list: seq<Status>, req: Request, p: nat) {
    && (req.Open? || req.Close?) && req.hw.stops
    && ToOpen(list, req).Some? && Displaces(isolated, p, ToOpen(list, req).value.id)
  }

  /** Only what is to be opened is started, and then it runs. Otherwise a player that is closed and stops,
      or that gives way, runs no more, and any other runs on. */
  lemma PlayerAfter(isolated: bool, h: Hub, req: Request)
    requires Running(h.playing)
    ensures var (after, started) := Handle(isolated, h, req);
            && (started.Some? ==>
                  && started == ToOpen(h.list, req) && PlayerId(started.value.id) && req.hw.starts
                  && after.playing == started.value.id)
            && (started.None? ==>
                  after.playing
                  == if Stops(req, h.playing) || GivesWay(isolated, h.list, req, h.playing) then 0 else h.playing)
  {
    hide AppendTo, Remove, SharesBit;
    PlayersById(Id(h.playing));
  }

  /** A player that is closed and stops does not run any more, unless what is opened next is the same. */
  lemma ClosedStops(isolated: bool, h: Hub, e: Status, hw: Hw)
    requires Running(h.playing) && h.playing == e.id
    ensures var (after, started) := Handle(isolated, h, Close(e, true, hw));
            && (started.None? ==> after.playing == 0)
            && (after.playing == e.id != 0 ==> started.Some? && started.value.id == e.id)
  {
    PlayerAfter(isolated, h, Close(e, true, hw));
    WhoGivesWay(isolated, if PlayerId(e.id) then e.id else 1, 0);
    hide Handle;
  }

  /** A CLOSE of something else leaves the player alone unless something is opened next. */
  lemma OthersPlayOn(isolated: bool, h: Hub, e: Status, stops: bool, hw: Hw)
    requires Running(h.playing) && h.playing != e.id && Remove(h.list, e, HEAD, false).1 == None
    ensures Handle(isolated, h, Close(e, stops, hw)) == (Hub(Remove(h.list, e, HEAD, false).0, h.playing), None)
  {
  }

  /** What is to be opened starts, when both players do as they should and it is not the same one. */
  lemma OpenedStarts(isolated: bool, h: Hub, req: Request)
    requires Running(h.playing) && (req.Open? || (req.Close? && req.stops)) && req.hw == Hw(true, true)
    requires ToOpen(h.list, req).Some? && PlayerId(ToOpen(h.list, req).value.id)
    requires isolated ==> h.playing != ToOpen(h.list, req).value.id || (req.Close? && h.playing == req.e.id)
    ensures Handle(isolated, h, req).1 == ToOpen(h.list, req)
  {
    hide AppendTo, Remove;
    var id := ToOpen(h.list, req).value.id;
    if h.playing != 0 {
      WhoGivesWay(isolated, h.playing, id);
    }
    hide SharesBit;
  }

  /** And the list: what is appended or removed, and what a player that gives way takes out of it, from the
      tail, by its id with isolated streams and as no prompt without. */
  lemma ListAfter(isolated: bool, h: Hub, req: Request)
    requires Running(h.playing)
    ensures var own := match req
                       case Open(e, _) => AppendTo(h.list, e).0
                       case Close(e, _, _) => Remove(h.list, e, HEAD, false).0
                       case CloseAll => []
                       case Setup => h.list
                       case Restart => h.list
                       case PopPrompt => Remove(h.list, Status(128, 0, 0, 0), HEAD, true).0
                       case Queue(audId) => AppendTo(h.list, Status(128, 0, audId, 0)).0
                       case Clear => [];
            var left := if Stops(req, h.playing) then 0 else h.playing;
            Handle(isolated, h, req).0.list
            == if left != 0 && GivesWay(isolated, h.list, req, left)
               then Remove(own, Status(if isolated then left else 0, 0, 0, 0), TAIL, false).0
               else own
  {
    hide AppendTo, Remove, SharesBit;
  }

  // ---------------------------------------------------------------------------------------------
  // Whole runs
  // ---------------------------------------------------------------------------------------------

  ghost function StartedAt(isolated: bool, reqs: seq<Request>, k: nat): Option<Status>
    requires k < |reqs|
  {
    Handle(isolated, Run(isolated, reqs[..k]).hub, reqs[k]).1
  }

  ghost predicate EndedAt(isolated: bool, reqs: seq<Request>, k: nat, p: nat)
    requires k < |reqs|
  {
    Stops(reqs[k], p) || GivesWay(isolated, Run(isolated, reqs[..k]).hub.list, reqs[k], p)
  }

  /** Request `k` started player `p`, and no later one started anything or ended it. */
  ghost predicate LastStarted(isolated: bool, reqs: seq<Request>, k: nat, p: nat)
    requires k < |reqs|
  {
    && StartedAt(isolated, reqs, k).Some? && StartedAt(isolated, reqs, k).value.id == p
    && forall j | k < j < |reqs| :: StartedAt(isolated, reqs, j).None? && !EndedAt(isolated, reqs, j, p)
  }

  lemma PrefixStarts(isolated: bool, reqs: seq<Request>, k: nat)
    requires k + 1 < |reqs|
    ensures var before := reqs[..|reqs| - 1];
            && StartedAt(isolated, before, k) == StartedAt(isolated, reqs, k)
            && forall p :: EndedAt(isolated, before, k, p) == EndedAt(isolated, reqs, k, p)
  {
    assert reqs[..|reqs| - 1][..k] == reqs[..k];
  }

  /** In every run, a player runs if and only if some request started it and no later one started another
      or ended it. */
  lemma {:induction false} RunsSinceStarted(isolated: bool, reqs: seq<Request>, p: nat)
    requires p != 0
    ensures Run(isolated, reqs).hub.playing == p <==> exists k | 0 <= k < |reqs| :: LastStarted(isolated, reqs, k, p)
  {
    if reqs != [] {
      var n := |reqs| - 1;
      var before := reqs[..n];
      RunsSinceStarted(isolated, before, p);
      PlayerAfter(isolated, Run(isolated, before).hub, reqs[n]);
      LastOrEarlier(isolated, reqs, p);
      hide Handle, LastStarted, Run, Stops, GivesWay;
    }
  }

  lemma LastOrEarlier(isolated: bool, reqs: seq<Request>, p: nat)
    requires reqs != []
    ensures var n := |reqs| - 1;
            (exists k | 0 <= k < |reqs| :: LastStarted(isolated, reqs, k, p)) <==>
            if StartedAt(isolated, reqs, n).Some? then StartedAt(isolated, reqs, n).value.id == p
            else
              !EndedAt(isolated, reqs, n, p) && exists k | 0 <= k < n :: LastStarted(isolated, reqs[..n], k, p)
  {
    hide StartedAt, EndedAt;
    var n := |reqs| - 1;
    forall k | 0 <= k < n
      ensures LastStarted(isolated, reqs, k, p) <==>
              && LastStarted(isolated, reqs[..n], k, p)
              && StartedAt(isolated, reqs, n).None? && !EndedAt(isolated, reqs, n, p)
    {
      forall j | k <= j < n
        ensures StartedAt(isolated, reqs[..n], j) == StartedAt(isolated, reqs, j)
        ensures EndedAt(isolated, reqs[..n], j, p) == EndedAt(isolated, reqs, j, p)
      {
        PrefixStarts(isolated, reqs, j);
      }
    }
    assert LastStarted(isolated, reqs, n, p) <==>
           StartedAt(isolated, reqs, n).Some? && StartedAt(isolated, reqs, n).value.id == p;
  }
}
