/** The USB command channel (`app_factory_cdc_comm.c`): a parser that finds message headers in a byte
    stream, re-reading what it has when the stream is out of step, and the replies it sends. `dataSize`
    is the build's size of the data field, checksum byte included. */
module CdcParser {
  import opened Bytes

  const PREFIX: byte := 0xBE
  const HDR := 4

  const TYPE_SYS: byte := 0x00
  const TYPE_READ: byte := 0x01
  const TYPE_WRITE: byte := 0x02

  const ERR_NONE := 0x00
  const ERR_LEN := 0x01
  const ERR_CHECKSUM := 0x02
  const ERR_SYS_CMD := 0x06
  const ERR_DATA_LEN := 0x08

  // ---------------------------------------------------------------------------------------------
  // Checks
  // ---------------------------------------------------------------------------------------------

  function Sum(s: seq<byte>): byte {
    if s == [] then 0 else (Sum(s[..|s| - 1]) + s[|s| - 1]) % 0x100
  }

  /** `check_sum` takes its length as an unsigned char. */
  method CheckSum(buf: array<byte>, len: byte) returns (sum: byte)
    requires len <= buf.Length
    ensures sum == Sum(buf[..len])
  {
    sum := 0;
    var i := 0;
    while i < len
      invariant 0 <= i <= len && sum == Sum(buf[..i])
    {
      assert buf[..i + 1][..i] == buf[..i];
      sum := (sum + buf[i]) % 0x100;
      i := i + 1;
    }
  }

  /** The length the caller's total is cut down to. */
  function Truncated(total: nat): byte {
    total % 0x100
  }

  /** `check_msg_hdr`. */
  function HeaderError(dataSize: nat, typ: byte, len: byte): nat {
    if typ == TYPE_SYS && len != 1 && len != 5 then ERR_LEN
    else if typ == TYPE_READ && len != 4 then ERR_LEN
    else if typ == TYPE_WRITE && (len <= 4 || len > 20) then ERR_LEN
    else if len + 1 > dataSize then ERR_LEN
    else ERR_NONE
  }

  /** `handle_sys_cmd`, without what the commands do to the system. */
  function CommandError(typ: byte, payload: seq<byte>): nat
    requires typ == TYPE_SYS ==> payload != []
  {
    if typ != TYPE_SYS then ERR_NONE
    else
      var cmd, len := payload[0], |payload| - 1;
      if cmd == 0xE1 || cmd == 0xE2 then (if len != 4 then ERR_DATA_LEN else ERR_NONE)
      else if len != 0 then ERR_DATA_LEN
      else if cmd == 0xF1 || cmd == 0xF2 || cmd == 0xE3 then ERR_NONE
      else ERR_SYS_CMD
  }

  // ---------------------------------------------------------------------------------------------
  // What a stream means
  // ---------------------------------------------------------------------------------------------

  /** A message accepted, or the error that ends the session. */
  datatype Event = Got(typ: byte, sn: byte, payload: seq<byte>) | Failed(code: nat)

  /** The earliest prefix byte, or the end. */
  function FirstPrefix(s: seq<byte>): (p: nat)
    ensures p <= |s| && (p < |s| ==> s[p] == PREFIX) && forall k | 0 <= k < p :: s[k] != PREFIX
  {
    if s == [] then 0 else if s[0] == PREFIX then 0 else 1 + FirstPrefix(s[1..])
  }

  predicate ChecksumOk(msg: seq<byte>) {
    Sum(msg[..Truncated(|msg|)]) == 0xFF
  }

  /** A complete message: header, payload, checksum. */
  function Judge(msg: seq<byte>): (e: Event)
    requires HDR < |msg| && (msg[1] == TYPE_SYS ==> |msg| > HDR + 1)
  {
    var payload := msg[HDR..|msg| - 1];
    if !ChecksumOk(msg) then Failed(ERR_CHECKSUM)
    else
      var code := CommandError(msg[1], payload);
      if code != ERR_NONE then Failed(code) else Got(msg[1], msg[2], payload)
  }

  /** Every message begins at the earliest prefix byte behind the one before. */
  function Parse(dataSize: nat, s: seq<byte>): seq<Event>
    decreases |s|
  {
    var p := FirstPrefix(s);
    if |s| < p + HDR then []
    else Message(dataSize, s[p..])
  }

  function Message(dataSize: nat, s: seq<byte>): seq<Event>
    requires |s| >= HDR && s[0] == PREFIX
    decreases |s|, 0
  {
    var code := HeaderError(dataSize, s[1], s[3]);
    var total := HDR + s[3] + 1;
    if code != ERR_NONE then [Failed(code)]
    else if |s| < total then []
    else
      var e := Judge(s[..total]);
      if e.Failed? then [e] else [e] + Parse(dataSize, s[total..])
  }

  // ---------------------------------------------------------------------------------------------
  // The parser
  // ---------------------------------------------------------------------------------------------

  datatype Phase = HEADER | DATA

  /** `msg` is the receive buffer, header and data; the next read fills `msg[buf..buf + len]`. */
  datatype State = State(phase: Phase, msg: seq<byte>, buf: nat, len: nat)

  /** The data field and its checksum byte. */
  function DataLen(msg: seq<byte>): (n: nat)
    requires |msg| >= HDR
    ensures 1 <= n <= 0x100
  {
    var len: nat := msg[3];
    len + 1
  }

  /** A header being completed starts with a prefix; a read is never empty and never too long. */
  predicate Valid(dataSize: nat, st: State) {
    && dataSize <= 0xFF && |st.msg| == HDR + dataSize
    && match st.phase
       case HEADER => 1 <= st.len <= HDR && st.buf == HDR - st.len && (st.buf > 0 ==> st.msg[0] == PREFIX)
       case DATA =>
         && st.buf == HDR && st.len == DataLen(st.msg) && st.len <= dataSize && st.msg[0] == PREFIX
         && HeaderError(dataSize, st.msg[1], st.msg[3]) == ERR_NONE
  }

  function Reset(msg: seq<byte>): State
    requires |msg| >= HDR
  {
    State(HEADER, [0, 0, 0, 0] + msg[HDR..], 0, HDR)
  }

  /** A read of `len` bytes. */
  function Receive(st: State, chunk: seq<byte>): State
    requires |chunk| == st.len && st.buf + st.len <= |st.msg|
  {
    st.(msg := st.msg[..st.buf] + chunk + st.msg[st.buf + st.len..])
  }

  /** What `parse_packet` does after a read: go on, or stop with an error code. */
  datatype Next = Go(st: State) | Done(e: Event, st: State) | Stop(code: nat)

  function ParsePacket(dataSize: nat, st: State): Next
    requires Valid(dataSize, st)
  {
    var msg := st.msg;
    match st.phase
    case HEADER =>
      if msg[0] == PREFIX then
        var code := HeaderError(dataSize, msg[1], msg[3]);
        if code != ERR_NONE then Stop(code) else Go(State(DATA, msg, HDR, DataLen(msg)))
      else
        var i := 1 + FirstPrefix(msg[1..st.len]);
        Go(State(HEADER, msg[i..st.len] + msg[st.len - i..], st.len - i, HDR + i - st.len))
    case DATA =>
      var e := Judge(msg[..HDR + st.len]);
      if e.Failed? then Stop(e.code) else Done(e, Reset(msg))
  }

  lemma ParsePacketKeeps(dataSize: nat, st: State)
    requires Valid(dataSize, st)
    ensures var next := ParsePacket(dataSize, st); !next.Stop? ==> Valid(dataSize, next.st)
  {
    hide Judge;
  }

  /** The main loop on a stream: read, parse, until an error or the end of the stream. */
  function Loop(dataSize: nat, st: State, s: seq<byte>): seq<Event>
    requires Valid(dataSize, st)
    decreases |s|
  {
    if |s| < st.len then []
    else
      ReceiveKeeps(dataSize, st, s[..st.len]);
      var got := Receive(st, s[..st.len]);
      ParsePacketKeeps(dataSize, got);
      match ParsePacket(dataSize, got)
      case Go(next) => Loop(dataSize, next, s[st.len..])
      case Done(e, next) => [e] + Loop(dataSize, next, s[st.len..])
      case Stop(code) => [Failed(code)]
  }

  lemma ReceiveKeeps(dataSize: nat, st: State, chunk: seq<byte>)
    requires Valid(dataSize, st) && |chunk| == st.len
    ensures Valid(dataSize, Receive(st, chunk))
  {
  }

  // ---------------------------------------------------------------------------------------------
  // The parser reads what the stream means
  // ---------------------------------------------------------------------------------------------

  /** Bytes before the first prefix do not matter. */
  lemma ParseSkips(dataSize: nat, s: seq<byte>, i: nat)
    requires i <= |s| && forall k | 0 <= k < i :: s[k] != PREFIX
    ensures Parse(dataSize, s) == Parse(dataSize, s[i..])
  {
    hide Message;
    var p := FirstPrefix(s);
    assert p >= i;
    FirstPrefixIs(s[i..], p - i);
    if |s| >= p + HDR {
      assert s[i..][p - i..] == s[p..];
    }
  }

  lemma FirstPrefixIs(s: seq<byte>, p: nat)
    requires p <= |s| && (forall k | 0 <= k < p :: s[k] != PREFIX) && (p < |s| ==> s[p] == PREFIX)
    ensures FirstPrefix(s) == p
  {
  }

  lemma ParseAtPrefix(dataSize: nat, s: seq<byte>)
    requires |s| >= HDR && s[0] == PREFIX
    ensures Parse(dataSize, s) == Message(dataSize, s)
  {
    hide Message;
    FirstPrefixIs(s, 0);
    assert s[0..] == s;
  }

  lemma ParseShort(dataSize: nat, s: seq<byte>)
    requires |s| < HDR
    ensures Parse(dataSize, s) == []
  {
  }

  /** What the bytes held and the bytes to come mean together. */
  function Meaning(dataSize: nat, st: State, s: seq<byte>): seq<Event>
    requires Valid(dataSize, st)
  {
    match st.phase
    case HEADER => Parse(dataSize, st.msg[..st.buf] + s)
    case DATA => Message(dataSize, st.msg[..HDR] + s)
  }

  /** What `parse_packet` returned, with the rest of the stream, still means `whole`. */
  predicate Continues(dataSize: nat, next: Next, rest: seq<byte>, whole: seq<Event>) {
    match next
    case Go(st) => Valid(dataSize, st) && whole == Meaning(dataSize, st, rest)
    case Done(e, st) => Valid(dataSize, st) && whole == [e] + Meaning(dataSize, st, rest)
    case Stop(code) => whole == [Failed(code)]
  }

  lemma MeaningShort(dataSize: nat, st: State, s: seq<byte>)
    requires Valid(dataSize, st) && |s| < st.len
    ensures Meaning(dataSize, st, s) == []
  {
    match st.phase {
      case HEADER => ParseShort(dataSize, st.msg[..st.buf] + s);
      case DATA =>
    }
  }

  /** The bytes after a read, in front of those still to come. */
  lemma ReadMoves(dataSize: nat, st: State, s: seq<byte>)
    requires Valid(dataSize, st) && |s| >= st.len
    ensures var got := Receive(st, s[..st.len]);
            && Valid(dataSize, got)
            && got.msg[..st.buf + st.len] + s[st.len..] == st.msg[..st.buf] + s
            && got.msg[..st.buf] == st.msg[..st.buf]
  {
  }

  lemma HeaderComplete(dataSize: nat, got: State, rest: seq<byte>)
    requires Valid(dataSize, got) && got.phase == HEADER && got.msg[0] == PREFIX
    ensures var whole := Parse(dataSize, got.msg[..HDR] + rest);
            Continues(dataSize, ParsePacket(dataSize, got), rest, whole)
  {
    hide Judge, FirstPrefix, Parse;
    ParseAtPrefix(dataSize, got.msg[..HDR] + rest);
    ParsePacketKeeps(dataSize, got);
  }

  lemma SearchedState(dataSize: nat, got: State)
    requires Valid(dataSize, got) && got.phase == HEADER && got.msg[0] != PREFIX
    ensures var i := 1 + FirstPrefix(got.msg[1..HDR]);
            && got.buf == 0 && i <= HDR
            && ParsePacket(dataSize, got) == Go(State(HEADER, got.msg[i..HDR] + got.msg[HDR - i..], HDR - i, i))
  {
    hide Judge, FirstPrefix, HeaderError;
    assert got.len == HDR;
  }

  /** Out of step: what was read is re-read from its earliest prefix byte on. */
  lemma HeaderSearched(dataSize: nat, got: State, rest: seq<byte>)
    requires Valid(dataSize, got) && got.phase == HEADER && got.msg[0] != PREFIX
    ensures var next := ParsePacket(dataSize, got);
            && next.Go? && Valid(dataSize, next.st) && next.st.phase == HEADER
            && Parse(dataSize, got.msg[..HDR] + rest) == Meaning(dataSize, next.st, rest)
  {
    hide Judge, Parse, FirstPrefix, ParsePacket;
    ParsePacketKeeps(dataSize, got);
    SearchedState(dataSize, got);
    var i := 1 + FirstPrefix(got.msg[1..HDR]);
    JunkSkipped(got.msg, rest, i);
    ParseSkips(dataSize, got.msg[..HDR] + rest, i);
  }

  lemma JunkSkipped(msg: seq<byte>, rest: seq<byte>, i: nat)
    requires |msg| >= HDR && msg[0] != PREFIX && i == 1 + FirstPrefix(msg[1..HDR])
    ensures forall k | 0 <= k < i :: (msg[..HDR] + rest)[k] != PREFIX
    ensures (msg[i..HDR] + msg[HDR - i..])[..HDR - i] + rest == (msg[..HDR] + rest)[i..]
  {
    hide FirstPrefix;
    forall k | 0 <= k < i
      ensures (msg[..HDR] + rest)[k] != PREFIX
    {
      assert k > 0 ==> msg[1..HDR][k - 1] == msg[k];
    }
  }

  lemma DataComplete(dataSize: nat, got: State, rest: seq<byte>)
    requires Valid(dataSize, got) && got.phase == DATA
    ensures var whole := Message(dataSize, got.msg[..HDR + got.len] + rest);
            Continues(dataSize, ParsePacket(dataSize, got), rest, whole)
  {
    hide Judge, Parse;
    ParsePacketKeeps(dataSize, got);
    var s, total := got.msg[..HDR + got.len] + rest, HDR + got.len;
    assert s[..total] == got.msg[..total] && s[total..] == rest && s[3] == got.msg[3];
    assert Reset(got.msg).msg[..0] + rest == rest;
  }

  lemma MeaningStep(dataSize: nat, st: State, s: seq<byte>)
    requires Valid(dataSize, st) && |s| >= st.len
    ensures var got := Receive(st, s[..st.len]);
            && Valid(dataSize, got)
            && Continues(dataSize, ParsePacket(dataSize, got), s[st.len..], Meaning(dataSize, st, s))
  {
    hide Judge, Parse, Message, FirstPrefix, ParsePacket;
    ReadMoves(dataSize, st, s);
    var got := Receive(st, s[..st.len]);
    if st.phase == DATA {
      DataComplete(dataSize, got, s[st.len..]);
      assert st.msg[..HDR] + s == got.msg[..HDR + got.len] + s[st.len..];
    } else if got.msg[0] == PREFIX {
      HeaderComplete(dataSize, got, s[st.len..]);
    } else {
      HeaderSearched(dataSize, got, s[st.len..]);
    }
  }

  /** The reads follow the stream: from any state the parser can be in, the main loop yields what the
      bytes held and the bytes to come mean. */
  lemma {:induction false} LoopIsParse(dataSize: nat, st: State, s: seq<byte>)
    requires Valid(dataSize, st)
    ensures Loop(dataSize, st, s) == Meaning(dataSize, st, s)
    decreases |s|
  {
    hide Meaning, ParsePacket;
    if |s| < st.len {
      MeaningShort(dataSize, st, s);
    } else {
      MeaningStep(dataSize, st, s);
      var got := Receive(st, s[..st.len]);
      match ParsePacket(dataSize, got) {
        case Go(next) => LoopIsParse(dataSize, next, s[st.len..]);
        case Done(_, next) => LoopIsParse(dataSize, next, s[st.len..]);
        case Stop(_) =>
      }
    }
  }

  /** A freshly reset parser finds every message of a stream. */
  lemma ParserReadsStream(dataSize: nat, msg: seq<byte>, s: seq<byte>)
    requires dataSize <= 0xFF && |msg| == HDR + dataSize
    ensures Loop(dataSize, Reset(msg), s) == Parse(dataSize, s)
  {
    LoopIsParse(dataSize, Reset(msg), s);
    assert Reset(msg).msg[..0] + s == s;
  }

  // ---------------------------------------------------------------------------------------------
  // Replies
  // ---------------------------------------------------------------------------------------------

  function Body(typ: byte, sn: byte, payload: seq<byte>): seq<byte>
    requires |payload| < 0x100
  {
    [PREFIX, typ, sn, |payload|] + payload
  }

  /** The message `send_reply` sends: its sum, too, is taken over a length cut to an unsigned char. */
  function Reply(typ: byte, sn: byte, payload: seq<byte>): seq<byte>
    requires |payload| < 0x100
  {
    var body := Body(typ, sn, payload);
    body + [0xFF - Sum(body[..Truncated(|body|)])]
  }

  /** Where the two sums still fit together: 251 and more data bytes make the receiver sum nothing, or
      only the first bytes of the header. */
  predicate SumsAgree(typ: byte, sn: byte, len: nat) {
    len <= 250 || (len == 253 && (PREFIX + typ) % 0x100 == 0xFF) || (len == 254 && (PREFIX + typ + sn) % 0x100 == 0xFF)
  }

  lemma SumPrefixes(s: seq<byte>)
    requires |s| >= 3
    ensures var a: int, b: int, c: int := s[0], s[1], s[2];
            && Sum(s[..0]) == 0 && Sum(s[..1]) == a && Sum(s[..2]) == (a + b) % 0x100
            && Sum(s[..3]) == (a + b + c) % 0x100
  {
    assert s[..1][..0] == s[..0] && s[..2][..1] == s[..1] && s[..3][..2] == s[..2];
  }

  lemma ReplyChecksum(typ: byte, sn: byte, payload: seq<byte>)
    requires |payload| <= 254
    ensures ChecksumOk(Reply(typ, sn, payload)) <==> SumsAgree(typ, sn, |payload|)
  {
    var body, msg := Body(typ, sn, payload), Reply(typ, sn, payload);
    if |payload| <= 250 {
      assert body[..|body|] == body && msg[..|msg|] == msg && msg[..|msg| - 1] == body;
    } else {
      SumPrefixes(msg);
    }
  }

  /** Round trip: a reply sent into a stream, behind any junk without a prefix byte, is read back and
      its checksum accepted exactly when the sums agree. */
  lemma ReplyReread(dataSize: nat, junk: seq<byte>, typ: byte, sn: byte, payload: seq<byte>, rest: seq<byte>)
    requires |payload| + 1 <= dataSize <= 0xFF && (forall k | 0 <= k < |junk| :: junk[k] != PREFIX)
    requires HeaderError(dataSize, typ, |payload|) == ERR_NONE
    ensures Parse(dataSize, junk + Reply(typ, sn, payload) + rest)
            == if !SumsAgree(typ, sn, |payload|) then [Failed(ERR_CHECKSUM)]
               else if CommandError(typ, payload) != ERR_NONE then [Failed(CommandError(typ, payload))]
               else [Got(typ, sn, payload)] + Parse(dataSize, rest)
  {
    hide Parse, Sum, ChecksumOk, CommandError, SumsAgree;
    var msg := Reply(typ, sn, payload);
    var whole := junk + msg + rest;
    assert whole[|junk|..] == msg + rest;
    ParseSkips(dataSize, whole, |junk|);
    ParseAtPrefix(dataSize, msg + rest);
    ReplyChecksum(typ, sn, payload);
    assert (msg + rest)[..|msg|] == msg && (msg + rest)[|msg|..] == rest;
    assert msg[HDR..|msg| - 1] == payload;
  }

  // ---------------------------------------------------------------------------------------------
  // The code
  // ---------------------------------------------------------------------------------------------

  class Parser {
    const dataSize: nat
    const recvMsg: array<byte>
    var phase: Phase
    var buf: nat
    var len: nat

    ghost function View(): State
      reads this, recvMsg
    {
      State(phase, recvMsg[..], buf, len)
    }

    ghost predicate Ready()
      reads this, recvMsg
    {
      Valid(dataSize, View())
    }

    constructor (size: nat)
      requires size <= 0xFF
      ensures Ready() && dataSize == size && fresh(recvMsg) && View() == Reset(recvMsg[..])
    {
      dataSize := size;
      recvMsg := new byte[HDR + size](_ => 0);
      phase, buf, len := HEADER, 0, HDR;
    }

    /** `reset_parse_state`. */
    method ResetParseState()
      requires recvMsg.Length >= HDR
      modifies this, recvMsg
      ensures View() == Reset(old(recvMsg[..])) && recvMsg[..4] == [0, 0, 0, 0]
    {
      phase := HEADER;
      recvMsg[0], recvMsg[1], recvMsg[2], recvMsg[3] := 0, 0, 0, 0;
      buf, len := 0, HDR;
    }

    /** `recv_data_ex` into the buffer: the bytes come from outside. */
    method Read(chunk: seq<byte>)
      requires Ready() && |chunk| == len
      modifies recvMsg
      ensures Ready() && View() == Receive(old(View()), chunk)
    {
      ReceiveKeeps(dataSize, View(), chunk);
      forall i | 0 <= i < |chunk| {
        recvMsg[buf + i] := chunk[i];
      }
      assert recvMsg[..] == old(recvMsg[..buf]) + chunk + old(recvMsg[buf + len..]);
    }

    /** The search for a prefix byte among the bytes of the read that failed. */
    method FindPrefix() returns (i: nat)
      requires 1 <= len <= recvMsg.Length
      ensures 1 <= i <= len && i == 1 + FirstPrefix(recvMsg[1..len])
    {
      i := 1;
      while i < len
        invariant 1 <= i <= len && forall k | 1 <= k < i :: recvMsg[k] != PREFIX
      {
        if recvMsg[i] == PREFIX {
          break;
        }
        i := i + 1;
      }
      FirstPrefixIs(recvMsg[1..len], i - 1);
    }

    /** `memmove` of the bytes from `i` on to the front: none, if the search found nothing. */
    method MoveUp(i: nat)
      requires 1 <= i <= len <= recvMsg.Length
      modifies recvMsg
      ensures recvMsg[..] == old(recvMsg[i..len]) + old(recvMsg[len - i..])
    {
      var k := 0;
      while k < len - i
        invariant 0 <= k <= len - i
        invariant forall j | 0 <= j < k :: recvMsg[j] == old(recvMsg[i + j])
        invariant forall j | k <= j < recvMsg.Length :: recvMsg[j] == old(recvMsg[j])
      {
        recvMsg[k] := recvMsg[i + k];
        k := k + 1;
      }
    }

    /** `handle_data`. */
    method HandleData() returns (code: nat)
      requires Ready() && phase == DATA
      ensures var e := Judge(recvMsg[..HDR + len]);
              if e.Failed? then code == e.code != ERR_NONE else code == ERR_NONE
    {
      var total := HDR + len;
      var sum := CheckSum(recvMsg, Truncated(total));
      assert recvMsg[..total][..Truncated(total)] == recvMsg[..Truncated(total)];
      if sum != 0xFF {
        return ERR_CHECKSUM;
      }
      code := CommandError(recvMsg[1], recvMsg[HDR..total - 1]);
      assert recvMsg[..total][HDR..total - 1] == recvMsg[HDR..total - 1];
    }

    /** The branch of `parse_packet` that re-reads what it has. */
    method Resync()
      requires Ready() && phase == HEADER && recvMsg[0] != PREFIX
      modifies this, recvMsg
      ensures ParsePacket(dataSize, old(View())) == Go(View())
    {
      hide ParsePacket, FirstPrefix, HeaderError;
      SearchedState(dataSize, View());
      var i := FindPrefix();
      MoveUp(i);
      buf, len := len - i, HDR + i - len;
    }

    /** `parse_packet` on a header; its assertion on the length read holds. */
    method ParseHeader() returns (code: nat)
      requires Ready() && phase == HEADER
      modifies this, recvMsg
      ensures Follows(ParsePacket(dataSize, old(View())), code)
    {
      hide Judge, FirstPrefix;
      assert 0 < len <= HDR;
      if recvMsg[0] == PREFIX {
        code := HeaderError(dataSize, recvMsg[1], recvMsg[3]);
        if code == ERR_NONE {
          phase, buf, len := DATA, HDR, DataLen(recvMsg[..]);
        }
      } else {
        Resync();
        code := ERR_NONE;
      }
    }

    /** The state and the result after `parse_packet`. */
    ghost predicate Follows(next: Next, code: nat)
      reads this, recvMsg
    {
      if next.Stop? then code == next.code != ERR_NONE else code == ERR_NONE && View() == next.st
    }

    /** `parse_packet`. */
    method ParseRead() returns (code: nat)
      requires Ready()
      modifies this, recvMsg
      ensures Follows(ParsePacket(dataSize, old(View())), code) && (code == ERR_NONE ==> Ready())
    {
      hide Judge;
      ParsePacketKeeps(dataSize, View());
      match phase {
        case HEADER =>
          hide ParsePacket;
          code := ParseHeader();
        case DATA =>
          code := HandleData();
          if code == ERR_NONE {
            ResetParseState();
          }
      }
    }

    /** Header and payload of a reply to the message received last. */
    method FillReply(sendMsg: array<byte>, payload: seq<byte>)
      requires recvMsg.Length >= HDR && sendMsg != recvMsg && HDR + |payload| < sendMsg.Length && |payload| < 0x100
      modifies sendMsg
      ensures sendMsg[..HDR + |payload|] == Body(recvMsg[1], recvMsg[2], payload)
    {
      sendMsg[0], sendMsg[1], sendMsg[2], sendMsg[3] := PREFIX, recvMsg[1], recvMsg[2], |payload|;
      forall i | 0 <= i < |payload| {
        sendMsg[HDR + i] := payload[i];
      }
    }

    /** `send_reply`. */
    method SendReply(sendMsg: array<byte>, payload: seq<byte>) returns (ret: int, sent: seq<byte>)
      requires recvMsg.Length == HDR + dataSize == sendMsg.Length && dataSize <= 0xFF && sendMsg != recvMsg
      modifies sendMsg
      ensures if |payload| + 1 > dataSize then ret == -1 && sent == []
              else ret == 0 && sent == Reply(recvMsg[1], recvMsg[2], payload)
    {
      hide Sum;
      if |payload| + 1 > dataSize {
        return -1, [];
      }
      FillReply(sendMsg, payload);
      ghost var body := sendMsg[..HDR + |payload|];
      var sum := CheckSum(sendMsg, Truncated(HDR + |payload|));
      assert body[..Truncated(HDR + |payload|)] == sendMsg[..Truncated(HDR + |payload|)];
      sendMsg[HDR + |payload|] := 0xFF - sum;
      ret, sent := 0, sendMsg[..HDR + |payload| + 1];
    }
  }
}
