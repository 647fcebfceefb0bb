/** The list of pending audio requests (`app_audio.cpp`) and the player that runs (`app_bt_stream.cpp`):
    streams at the front of the list, prompts behind them in the order they came, one player at a time.
    Opening a player displaces the one that runs, and takes an entry out of the list for it. What
    players do to the audio hardware is not modelled. */
module AudioRequests {
  import opened Helpers

  const POOL_SIZE := 20
  const MAX_AUDIO_BUF_LIST := 20
  const PLAY_BACK_AUDIO := 128
  const INCOMING_CALL := 21

  /** No player runs. */
  const INVALID := 0
  /** Ids from here on are input streams. */
  const BORDER_INDEX := 4096

  datatype Status = Status(id: nat, status: nat, audId: nat, freq: nat) {
    predicate Playback() {
      id == PLAY_BACK_AUDIO
    }

    /** The HFP and A2DP streams. */
    predicate Stream() {
      id == 1 || id == 2 || id == 4 || id == 8 || id == 16 || id == 32
    }

    /** The players the build can start: the streams, the factory loop and prompts. */
    predicate Player() {
      Stream() || id == 64 || Playback()
    }

    predicate Incoming() {
      Playback() && audId == INCOMING_CALL
    }
  }

  // ---------------------------------------------------------------------------------------------
  // One request
  // ---------------------------------------------------------------------------------------------

  ghost predicate HasStream(list: seq<Status>) {
    exists i | 0 <= i < |list| :: list[i].Stream()
  }

  ghost predicate HasIncoming(list: seq<Status>) {
    exists i | 0 <= i < |list| :: list[i].Incoming()
  }

  /** Where the prompts begin. */
  function FirstPrompt(list: seq<Status>): (i: nat)
    ensures i <= |list| && (i < |list| ==> list[i].Playback()) && forall k | 0 <= k < i :: !list[k].Playback()
  {
    if list == [] then 0 else if list[0].Playback() then 0 else 1 + FirstPrompt(list[1..])
  }

  predicate HasPrompt(list: seq<Status>) {
    FirstPrompt(list) < |list|
  }

  /** A second incoming-call prompt is refused; any other prompt is when three entries wait. */
  ghost predicate Filtered(list: seq<Status>, e: Status) {
    e.Playback() && if e.audId == INCOMING_CALL then HasIncoming(list) else |list| >= 3
  }

  /** A prompt that finds the list full of requests none of which is a stream empties it. */
  ghost predicate Clears(list: seq<Status>, e: Status) {
    e.Playback() && !Filtered(list, e) && HasPrompt(list) && |list| >= MAX_AUDIO_BUF_LIST && !HasStream(list)
  }

  /** `app_audio_list_append`: the new list, whether the entry went in, whether it is to be opened. */
  ghost function AppendTo(list: seq<Status>, e: Status): (seq<Status>, bool, bool) {
    if Filtered(list, e) then (list, false, false)
    else if Clears(list, e) then ([e], true, true)
    else if |list| >= POOL_SIZE then (list, false, false)
    else if e.Playback() then (list + [e], true, !HasPrompt(list))
    else ([e] + list, true, true)
  }

  datatype Pos = HEAD | TAIL

  /** `app_audio_list_rmv_callback`: the new list and the request to be opened next. */
  ghost function Remove(list: seq<Status>, e: Status, pos: Pos, popNext: bool): (seq<Status>, Option<Status>) {
    if list == [] then (list, None)
    else if e.Playback() then
      var i := FirstPrompt(list);
      if i == |list| then (list, None)
      else
        (list[..i] + list[i + 1..],
         if popNext then Some(list[i])
         else if i + 1 < |list| then Some(list[i + 1])
         else if HasStream(list) then Some(list[0])
         else None)
    else if HasStream(list) then
      (if pos == HEAD then list[1..] else list[..|list| - 1], None)
    else (list, None)
  }

  /** Streams before prompts. */
  ghost predicate Ordered(list: seq<Status>) {
    forall k | FirstPrompt(list) <= k < |list| :: list[k].Playback()
  }

  // ---------------------------------------------------------------------------------------------
  // What every request keeps
  // ---------------------------------------------------------------------------------------------

  /** The prompts, in the order they came. */
  function Prompts(list: seq<Status>): seq<Status> {
    list[FirstPrompt(list)..]
  }

  /** Prompts other than the incoming-call one. */
  function Others(list: seq<Status>): nat {
    if list == [] then 0
    else Others(list[..|list| - 1]) + if list[|list| - 1].Playback() && !list[|list| - 1].Incoming() then 1 else 0
  }

  ghost predicate OneIncoming(list: seq<Status>) {
    forall i, j | 0 <= i < j < |list| :: !(list[i].Incoming() && list[j].Incoming())
  }

  ghost predicate WellFormed(list: seq<Status>) {
    Ordered(list) && |list| <= POOL_SIZE && OneIncoming(list) && Others(list) <= 3
  }

  lemma FirstPromptIs(list: seq<Status>, i: nat)
    requires i <= |list| && (forall k | 0 <= k < i :: !list[k].Playback()) && (i < |list| ==> list[i].Playback())
    ensures FirstPrompt(list) == i
  {
  }

  lemma PrependStream(list: seq<Status>, e: Status)
    requires Ordered(list) && !e.Playback()
    ensures Ordered([e] + list) && Prompts([e] + list) == Prompts(list)
  {
    assert ([e] + list)[1..] == list;
    FirstPromptIs([e] + list, FirstPrompt(list) + 1);
  }

  lemma AppendPrompt(list: seq<Status>, e: Status)
    requires Ordered(list) && e.Playback()
    ensures Ordered(list + [e]) && Prompts(list + [e]) == Prompts(list) + [e]
  {
    FirstPromptIs(list + [e], FirstPrompt(list));
  }

  lemma RemoveFirstPrompt(list: seq<Status>)
    requires Ordered(list) && HasPrompt(list)
    ensures var i := FirstPrompt(list);
            var rest := list[..i] + list[i + 1..];
            Ordered(rest) && Prompts(rest) == Prompts(list)[1..]
  {
    var i := FirstPrompt(list);
    FirstPromptIs(list[..i] + list[i + 1..], i);
  }

  /** With a stream in the list its front is not a prompt. */
  lemma FrontIsNoPrompt(list: seq<Status>)
    requires Ordered(list) && HasStream(list)
    ensures list != [] && FirstPrompt(list) > 0 && !list[0].Playback()
  {
  }

  lemma RemoveFront(list: seq<Status>)
    requires Ordered(list) && HasStream(list)
    ensures Ordered(list[1..]) && Prompts(list[1..]) == Prompts(list)
  {
    FrontIsNoPrompt(list);
    FirstPromptIs(list[1..], FirstPrompt(list) - 1);
  }

  lemma {:induction false} OthersSplit(a: seq<Status>, b: seq<Status>)
    ensures Others(a + b) == Others(a) + Others(b)
  {
    if b == [] {
      assert a + b == a;
    } else {
      assert (a + b)[..|a + b| - 1] == a + b[..|b| - 1];
      OthersSplit(a, b[..|b| - 1]);
    }
  }

  lemma {:induction false} OthersBound(a: seq<Status>)
    ensures Others(a) <= |a|
  {
    if a != [] {
      OthersBound(a[..|a| - 1]);
    }
  }

  lemma OthersLess(a: seq<Status>, b: seq<Status>, c: seq<Status>)
    ensures Others(a + c) <= Others(a + b + c)
  {
    OthersSplit(a, c);
    OthersSplit(a, b);
    OthersSplit(a + b, c);
  }

  /** The list, and the id of the player that runs. */
  datatype Hub = Hub(list: seq<Status>, playing: nat)

  function Id(id: nat): Status {
    Status(id, 0, 0, 0)
  }

  predicate Running(playing: nat) {
    playing == INVALID || Id(playing).Player()
  }

  /** `gStreamplayer & player`, for the single bit of a player that runs. */
  predicate SharesBit(id: nat, playing: nat)
    requires playing != INVALID
  {
    (id / playing) % 2 == 1
  }

  /** Opening `id` closes the player that runs first. With isolated streams one that is open already, and
      an input stream, leave it alone. */
  predicate Displaces(isolated: bool, playing: nat, id: nat) {
    playing != INVALID && (isolated ==> !SharesBit(id, playing) && id < BORDER_INDEX)
  }

  /** Whether the player that is displaced stops and the one that is opened starts. */
  datatype Hw = Hw(stops: bool, starts: bool)

  /** The id by which the list is searched for the player just closed. Without isolated streams it is
      read from `gStreamplayer` when that has been cleared. */
  function ClosedId(isolated: bool, playing: nat): nat {
    if isolated then playing else INVALID
  }

  /** `app_bt_stream_open`: what is left in the list and running, and whether `e` was started. For the
      player displaced, if it stops, the list loses an entry, searched from its tail. */
  ghost function StreamOpen(isolated: bool, h: Hub, e: Status, hw: Hw): (r: (Hub, bool))
    requires Running(h.playing)
    ensures Running(r.0.playing)
  {
    if Displaces(isolated, h.playing, e.id) then
      if !hw.stops then (h, false)
      else Started(Hub(Remove(h.list, Id(ClosedId(isolated, h.playing)), TAIL, false).0, INVALID), e, hw.starts)
    else if isolated && h.playing != INVALID && SharesBit(e.id, h.playing) then (h, false)
    else Started(h, e, hw.starts)
  }

  function Started(h: Hub, e: Status, starts: bool): (Hub, bool) {
    if e.Player() && starts then (h.(playing := e.id), true) else (h, false)
  }

  /** `app_bt_stream_close`. */
  function Stopped(playing: nat, id: nat, stops: bool): nat {
    if playing == id && stops then INVALID else playing
  }

  /** Everything that is done to the list and the player: OPEN, CLOSE, CLOSEALL, SETUP and RESTART messages,
      the prompt mixer taking the next prompt, and the media manager queueing a prompt and emptying the
      list. `stops` is whether the player closed stops. */
  datatype Request =
    | Open(e: Status, hw: Hw)
    | Close(e: Status, stops: bool, hw: Hw)
    | CloseAll
    | Setup
    | Restart
    | PopPrompt
    | Queue(audId: nat)
    | Clear

  function Queued(audId: nat): Status {
    Status(PLAY_BACK_AUDIO, 0, audId, 0)
  }

  /** The new list and player, and the request that was started. */
  ghost function Handle(isolated: bool, h: Hub, req: Request): (r: (Hub, Option<Status>))
    requires Running(h.playing)
    ensures Running(r.0.playing)
  {
    match req
    case Open(e, hw) =>
      var (list, _, open) := AppendTo(h.list, e);
      if open then
        var (after, started) := StreamOpen(isolated, h.(list := list), e, hw);
        (after, if started then Some(e) else None)
      else (h.(list := list), None)
    case Close(e, stops, hw) =>
      var (list, next) := Remove(h.list, e, HEAD, false);
      var stopped := Hub(list, Stopped(h.playing, e.id, stops));
      if next.Some? then
        var (after, started) := StreamOpen(isolated, stopped, next.value, hw);
        (after, if started then next else None)
      else (stopped, None)
    case CloseAll => (Hub([], INVALID), None)
    case Setup | Restart => (h, None)
    case PopPrompt => (h.(list := Remove(h.list, Id(PLAY_BACK_AUDIO), HEAD, true).0), None)
    case Queue(audId) => (h.(list := AppendTo(h.list, Queued(audId)).0), None)
    case Clear => (h.(list := []), None)
  }

  lemma OpenKeeps(list: seq<Status>, e: Status)
    requires WellFormed(list)
    ensures WellFormed(AppendTo(list, e).0)
  {
    OthersSplit(list, [e]);
    OthersSplit([e], list);
    OthersBound(list);
    OthersBound([e]);
    if e.Playback() {
      AppendPrompt(list, e);
    } else {
      PrependStream(list, e);
    }
  }

  lemma DropKeeps(list: seq<Status>, i: nat)
    requires WellFormed(list) && i < |list| && Ordered(list[..i] + list[i + 1..])
    ensures WellFormed(list[..i] + list[i + 1..])
  {
    assert list == list[..i] + [list[i]] + list[i + 1..];
    OthersLess(list[..i], [list[i]], list[i + 1..]);
  }

  /** Removing keeps the list well formed, from either end and whether or not a prompt is popped. */
  lemma RemoveKeeps(list: seq<Status>, e: Status, pos: Pos, popNext: bool)
    requires WellFormed(list)
    ensures WellFormed(Remove(list, e, pos, popNext).0)
  {
    hide OneIncoming, Others;
    if e.Playback() && HasPrompt(list) {
      DropPromptKeeps(list);
    } else if !e.Playback() && HasStream(list) && pos == HEAD {
      DropFrontKeeps(list);
    } else if !e.Playback() && HasStream(list) {
      DropLastKeeps(list);
    }
    hide WellFormed, HasStream;
  }

  lemma RemoveLast(list: seq<Status>)
    requires Ordered(list) && list != []
    ensures var rest := list[..|list| - 1];
            Ordered(rest) && Prompts(rest) == if HasPrompt(list) then Prompts(list)[..|Prompts(list)| - 1] else []
  {
    var n := |list| - 1;
    FirstPromptIs(list[..n], if HasPrompt(list) then FirstPrompt(list) else n);
  }

  lemma DropLastKeeps(list: seq<Status>)
    requires WellFormed(list) && HasStream(list)
    ensures WellFormed(list[..|list| - 1])
  {
    hide OneIncoming, Others, Ordered, FirstPrompt, HasStream, Prompts;
    assert list != [] by {
      FrontIsNoPrompt(list);
    }
    var n := |list| - 1;
    RemoveLast(list);
    assert list[..n] + list[n + 1..] == list[..n];
    DropKeeps(list, n);
  }

  lemma DropPromptKeeps(list: seq<Status>)
    requires WellFormed(list) && HasPrompt(list)
    ensures var i := FirstPrompt(list); WellFormed(list[..i] + list[i + 1..])
  {
    RemoveFirstPrompt(list);
    hide OneIncoming, Others;
    DropKeeps(list, FirstPrompt(list));
  }

  lemma DropFrontKeeps(list: seq<Status>)
    requires WellFormed(list) && HasStream(list)
    ensures WellFormed(list[1..])
  {
    hide OneIncoming, Others, Ordered, FirstPrompt, HasStream, Prompts;
    assert list != [] by {
      FrontIsNoPrompt(list);
    }
    RemoveFront(list);
    assert list[..0] + list[1..] == list[1..];
    DropKeeps(list, 0);
  }

  lemma StreamOpenKeeps(isolated: bool, h: Hub, e: Status, hw: Hw)
    requires WellFormed(h.list) && Running(h.playing)
    ensures WellFormed(StreamOpen(isolated, h, e, hw).0.list)
  {
    hide WellFormed, Remove;
    RemoveKeeps(h.list, Id(ClosedId(isolated, h.playing)), TAIL, false);
  }

  lemma HandleKeeps(isolated: bool, h: Hub, req: Request)
    requires WellFormed(h.list) && Running(h.playing)
    ensures WellFormed(Handle(isolated, h, req).0.list)
  {
    hide WellFormed, AppendTo, Remove, StreamOpen;
    match req {
      case Open(e, hw) =>
        OpenKeeps(h.list, e);
        StreamOpenKeeps(isolated, h.(list := AppendTo(h.list, e).0), e, hw);
      case Close(e, stops, hw) =>
        var (list, next) := Remove(h.list, e, HEAD, false);
        RemoveKeeps(h.list, e, HEAD, false);
        if next.Some? {
          StreamOpenKeeps(isolated, Hub(list, Stopped(h.playing, e.id, stops)), next.value, hw);
        }
      case CloseAll => EmptyWellFormed();
      case Setup | Restart =>
      case PopPrompt => RemoveKeeps(h.list, Id(PLAY_BACK_AUDIO), HEAD, true);
      case Queue(audId) => OpenKeeps(h.list, Queued(audId));
      case Clear => EmptyWellFormed();
    }
  }

  /** A full list takes nothing more, except that an incoming-call prompt which finds prompts but no
      stream and no prompt of its kind empties it. */
  lemma FullListRefuses(list: seq<Status>, e: Status)
    requires WellFormed(list) && |list| == POOL_SIZE
    ensures var (after, accepted, open) := AppendTo(list, e);
            if e.Incoming() && HasPrompt(list) && !HasIncoming(list) && !HasStream(list) then
              after == [e] && accepted && open
            else after == list && !accepted && !open
  {
    hide WellFormed, HasStream, HasIncoming, HasPrompt;
    assert !e.Incoming() && e.Playback() ==> Filtered(list, e);
  }

  lemma EmptyWellFormed()
    ensures WellFormed([])
  {
  }

  class AudioList {
    const isolated: bool
    var list: seq<Status>
    var blocks: nat
    var gStreamplayer: nat

    /** Every pool block in use is an entry of the list. */
    ghost predicate Valid()
      reads this
    {
      blocks == |list| && WellFormed(list) && Running(gStreamplayer)
    }

    ghost function View(): Hub
      reads this
    {
      Hub(list, gStreamplayer)
    }

    constructor (isolatedStreams: bool)
      ensures Valid() && isolated == isolatedStreams && View() == Hub([], INVALID)
    {
      isolated := isolatedStreams;
      list, blocks, gStreamplayer := [], 0, INVALID;
    }

    /** `app_audio_list_stream_exist`. */
    method StreamExist() returns (found: bool)
      ensures found <==> HasStream(list)
    {
      var i := 0;
      while i < |list|
        invariant 0 <= i <= |list| && forall k | 0 <= k < i :: !list[k].Stream()
      {
        if list[i].Stream() {
          return true;
        }
        i := i + 1;
      }
      return false;
    }

    /** `app_audio_list_playback_exist`. */
    method PlaybackExist() returns (found: bool)
      ensures found <==> HasPrompt(list)
    {
      var i := 0;
      while i < |list|
        invariant 0 <= i <= |list| && forall k | 0 <= k < i :: !list[k].Playback()
      {
        if list[i].Playback() {
          return true;
        }
        i := i + 1;
      }
      return false;
    }

    /** `app_audio_list_filter_exist`. */
    method FilterExist(e: Status) returns (filtered: bool)
      ensures filtered <==> Filtered(list, e)
    {
      var i := 0;
      if e.Playback() {
        if e.audId == INCOMING_CALL {
          while i < |list|
            invariant 0 <= i <= |list| && forall k | 0 <= k < i :: !list[k].Incoming()
          {
            if list[i].Playback() && list[i].audId == INCOMING_CALL {
              return true;
            }
            i := i + 1;
          }
        } else {
          var cnt := 0;
          while i < |list|
            invariant 0 <= i <= |list| && cnt == i <= 2
          {
            cnt := cnt + 1;
            if cnt - 1 > 1 {
              return true;
            }
            i := i + 1;
          }
        }
      }
      return false;
    }

    /** A block from the memory pool. */
    method Alloc() returns (ok: bool)
      modifies `blocks
      ensures ok <==> old(blocks) < POOL_SIZE
      ensures blocks == old(blocks) + if ok then 1 else 0
    {
      ok := blocks < POOL_SIZE;
      if ok {
        blocks := blocks + 1;
      }
    }

    /** `app_audio_list_append`. With every block in the list, the copy of the front entry that would
        survive a clearing can never be allocated. */
    method Append(e: Status) returns (ret: bool)
      requires Valid()
      modifies `list, `blocks
      ensures Valid() && (list, ret) == (AppendTo(old(list), e).0, AppendTo(old(list), e).2)
    {
      OpenKeeps(list, e);
      hide WellFormed;
      var toHead := false;
      ret := true;
      if e.Playback() {
        var filtered := FilterExist(e);
        if filtered {
          return false;
        }
        var playback := PlaybackExist();
        if playback {
          if |list| >= MAX_AUDIO_BUF_LIST {
            var stream := StreamExist();
            if stream {
              var copied := Alloc();
              if !copied {
                return false;
              }
              assert false;
            }
            list, blocks := [], blocks - |list|;
            assert list + [e] == [e];
          } else {
            ret := false;
          }
        }
      } else {
        toHead := true;
      }
      var ok := Alloc();
      if !ok {
        return false;
      }
      if toHead {
        list := [e] + list;
      } else {
        list := list + [e];
      }
    }

    /** The loop of `app_audio_list_rmv_callback` to the first prompt. */
    method FindPlayback() returns (i: nat)
      ensures i == FirstPrompt(list)
    {
      i := 0;
      while i < |list|
        invariant 0 <= i <= |list| && forall k | 0 <= k < i :: !list[k].Playback()
      {
        if list[i].Playback() {
          break;
        }
        i := i + 1;
      }
      FirstPromptIs(list, i);
    }

    /** The request behind a prompt that is removed; the two assertions on its kind hold. */
    method NextRequest(i: nat) returns (next: Option<Status>)
      requires Ordered(list) && i == FirstPrompt(list) < |list|
      ensures next == if i + 1 < |list| then Some(list[i + 1]) else if HasStream(list) then Some(list[0]) else None
    {
      next := None;
      if i + 1 < |list| {
        next := Some(list[i + 1]);
        assert next.value.Playback();
      } else {
        var stream := StreamExist();
        if stream {
          next := Some(list[0]);
          FrontIsNoPrompt(list);
          assert !next.value.Playback();
        }
      }
    }

    /** `app_audio_list_rmv_callback`. */
    method Rmv(e: Status, pos: Pos, popNext: bool) returns (next: Option<Status>)
      requires Valid()
      modifies `list, `blocks
      ensures Valid() && (list, next) == Remove(old(list), e, pos, popNext)
    {
      RemoveKeeps(list, e, pos, popNext);
      assert Ordered(list);
      hide WellFormed, Ordered, OneIncoming, Others, HasStream;
      next := None;
      if |list| == 0 {
        return;
      }
      var toRemove: int := -1;
      if e.Playback() {
        var i := FindPlayback();
        if i < |list| {
          toRemove := i;
          if popNext {
            next := Some(list[i]);
          } else {
            next := NextRequest(i);
          }
        }
      } else {
        var stream := StreamExist();
        if stream {
          toRemove := if pos == HEAD then 0 else |list| - 1;
          assert list[..toRemove] + list[toRemove + 1..] == if pos == HEAD then list[1..] else list[..|list| - 1];
        }
      }
      hide FirstPrompt;
      if toRemove >= 0 {
        list := list[..toRemove] + list[toRemove + 1..];
        blocks := blocks - 1;
      }
    }

    /** `app_bt_stream_close`: whether the player ran. */
    method StreamClose(id: nat, stops: bool) returns (ok: bool)
      requires Running(gStreamplayer)
      modifies `gStreamplayer
      ensures gStreamplayer == Stopped(old(gStreamplayer), id, stops) && Running(gStreamplayer)
      ensures ok <==> old(gStreamplayer) == id != INVALID && stops
    {
      ok := gStreamplayer == id && id != INVALID && stops;
      if ok {
        gStreamplayer := INVALID;
      }
    }

    /** `app_bt_stream_open`. */
    method StreamOpenCall(e: Status, hw: Hw) returns (started: bool)
      requires Valid()
      modifies this
      ensures Valid() && (View(), started) == StreamOpen(isolated, old(View()), e, hw)
    {
      hide WellFormed, Remove;
      if gStreamplayer != INVALID {
        if isolated && SharesBit(e.id, gStreamplayer) {
          return false;
        }
        if !isolated || e.id < BORDER_INDEX {
          var toClose := gStreamplayer;
          var closed := StreamClose(toClose, hw.stops);
          if !closed {
            return false;
          }
          var _ := Rmv(Id(if isolated then toClose else gStreamplayer), TAIL, false);
        }
      }
      started := e.Player() && hw.starts;
      if started {
        gStreamplayer := e.id;
      }
    }

    /** `app_audio_list_clear`. */
    method Clear()
      requires Valid()
      modifies `list, `blocks
      ensures Valid() && list == []
    {
      EmptyWellFormed();
      list, blocks := [], blocks - |list|;
    }

    /** `app_audio_handle_process`, and the other callers of the list. */
    method Process(req: Request) returns (started: Option<Status>)
      requires Valid()
      modifies this
      ensures Valid() && (View(), started) == Handle(isolated, old(View()), req)
    {
      hide WellFormed, Remove, AppendTo, StreamOpen;
      started := None;
      match req {
        case Open(e, hw) =>
          var ret := Append(e);
          if ret {
            var ok := StreamOpenCall(e, hw);
            started := if ok then Some(e) else None;
          }
        case Close(e, stops, hw) =>
          var _ := StreamClose(e.id, stops);
          var next := Rmv(e, HEAD, false);
          if next.Some? {
            var ok := StreamOpenCall(next.value, hw);
            started := if ok then next else None;
          }
        case CloseAll =>
          gStreamplayer := INVALID;
          Clear();
        case Setup | Restart =>
        case PopPrompt =>
          var _ := Rmv(Id(PLAY_BACK_AUDIO), HEAD, true);
        case Queue(audId) =>
          var _ := Append(Queued(audId));
        case Clear =>
          Clear();
      }
    }
  }
}
