/** The commands of the USB channel as byte strings: which messages get through, and what becomes of every
    other one. */
module CdcCommands {
  import opened Bytes
  import opened CdcParser

  // ---------------------------------------------------------------------------------------------
  // Commands
  // ---------------------------------------------------------------------------------------------

  datatype Command =
    | Reading(addr: seq<byte>)
    | Writing(addr: seq<byte>, data: seq<byte>)
    | Reboot
    | Shutdown
    | GetBootmode
    | SetBootmode(mode: seq<byte>)
    | ClearBootmode(mode: seq<byte>)

  /** Addresses and boot modes have four bytes, data to be written one to sixteen. */
  predicate Proper(c: Command) {
    match c
    case Reading(addr) => |addr| == 4
    case Writing(addr, data) => |addr| == 4 && 1 <= |data| <= 16
    case SetBootmode(mode) => |mode| == 4
    case ClearBootmode(mode) => |mode| == 4
    case _ => true
  }

  function TypeByte(c: Command): byte {
    match c
    case Reading(_) => 0x01
    case Writing(_, _) => 0x02
    case _ => 0x00
  }

  function Payload(c: Command): (p: seq<byte>)
    ensures Proper(c) ==> |p| <= 20
  {
    match c
    case Reading(addr) => addr
    case Writing(addr, data) => addr + data
    case Reboot => [0xF1]
    case Shutdown => [0xF2]
    case GetBootmode => [0xE3]
    case SetBootmode(mode) => [0xE1] + mode
    case ClearBootmode(mode) => [0xE2] + mode
  }

  function Total(s: seq<byte>): nat {
    if s == [] then 0 else Total(s[..|s| - 1]) + s[|s| - 1]
  }

  function Head(typ: byte, sn: byte, payload: seq<byte>): (m: seq<byte>)
    requires |payload| < 0x100
    ensures |m| == |payload| + 4
  {
    [0xBE, typ, sn, |payload|] + payload
  }

  /** The byte that makes a message add up to 255 modulo 256. */
  function Check(m: seq<byte>): byte {
    0xFF - Total(m) % 0x100
  }

  /** Header, payload and checksum. */
  function MessageBytes(typ: byte, sn: byte, payload: seq<byte>): (m: seq<byte>)
    requires |payload| < 0x100
    ensures |m| == |payload| + 5
  {
    Head(typ, sn, payload) + [Check(Head(typ, sn, payload))]
  }

  // ---------------------------------------------------------------------------------------------
  // What becomes of a message
  // ---------------------------------------------------------------------------------------------

  /** The length byte a type may have, and the data field holds. */
  predicate LengthFits(dataSize: nat, typ: byte, len: byte) {
    && len < dataSize
    && (typ == 0x00 ==> len == 1 || len == 5)
    && (typ == 0x01 ==> len == 4)
    && (typ == 0x02 ==> 5 <= len <= 20)
  }

  lemma {:induction false} SumIsTotal(s: seq<byte>)
    ensures Sum(s) == Total(s) % 0x100
  {
    if s != [] {
      SumIsTotal(s[..|s| - 1]);
    }
  }

  lemma Behind(dataSize: nat, junk: seq<byte>, s: seq<byte>)
    requires |s| >= 4 && s[0] == 0xBE && forall k | 0 <= k < |junk| :: junk[k] != 0xBE
    ensures Parse(dataSize, junk + s) == Message(dataSize, s)
  {
    hide Message, Parse;
    ParseSkips(dataSize, junk + s, |junk|);
    assert (junk + s)[|junk|..] == s;
    ParseAtPrefix(dataSize, s);
  }

  /** A header with a length its type may not have ends the session at once. */
  lemma BadLengthFails(dataSize: nat, junk: seq<byte>, typ: byte, sn: byte, len: byte, rest: seq<byte>)
    requires (forall k | 0 <= k < |junk| :: junk[k] != 0xBE) && !LengthFits(dataSize, typ, len)
    ensures Parse(dataSize, junk + ([0xBE, typ, sn, len] + rest)) == [Failed(1)]
  {
    hide Parse;
    Behind(dataSize, junk, [0xBE, typ, sn, len] + rest);
  }

  /** And a complete message with a length that fits is refused for its checksum, for a SYS command with
      too much or too little data, for an unknown SYS command, or else it is accepted. */
  lemma MessageDecided(dataSize: nat, junk: seq<byte>, typ: byte, sn: byte, payload: seq<byte>, check: byte,
                       rest: seq<byte>)
    requires (forall k | 0 <= k < |junk| :: junk[k] != 0xBE) && |payload| <= 250
    requires LengthFits(dataSize, typ, |payload|)
    ensures var m := Head(typ, sn, payload) + [check];
            Parse(dataSize, junk + (m + rest))
            == if Total(m) % 0x100 != 0xFF then [Failed(2)]
               else if typ == 0x00 && |payload| != (if payload[0] == 0xE1 || payload[0] == 0xE2 then 5 else 1)
               then [Failed(8)]
               else if typ == 0x00 && payload[0] != 0xE1 && payload[0] != 0xE2 && payload[0] != 0xE3
                       && payload[0] != 0xF1 && payload[0] != 0xF2
               then [Failed(6)]
               else [Got(typ, sn, payload)] + Parse(dataSize, rest)
  {
    var m := Head(typ, sn, payload) + [check];
    hide Parse, Judge, FirstPrefix;
    Behind(dataSize, junk, m + rest);
    assert (m + rest)[..|m|] == m && (m + rest)[|m|..] == rest;
    JudgedByBytes(m, typ, sn, payload, check);
  }

  lemma JudgedByBytes(m: seq<byte>, typ: byte, sn: byte, payload: seq<byte>, check: byte)
    requires |payload| <= 250 && m == Head(typ, sn, payload) + [check]
    requires typ == 0x00 ==> payload != []
    ensures Judge(m)
         == if Total(m) % 0x100 != 0xFF then Failed(2)
            else if typ == 0x00 && |payload| != (if payload[0] == 0xE1 || payload[0] == 0xE2 then 5 else 1)
            then Failed(8)
            else if typ == 0x00 && payload[0] != 0xE1 && payload[0] != 0xE2 && payload[0] != 0xE3
                    && payload[0] != 0xF1 && payload[0] != 0xF2
            then Failed(6)
            else Got(typ, sn, payload)
  {
    SumIsTotal(m);
    hide Sum, Total;
    assert m[..|m|] == m && m[4..|m| - 1] == payload;
  }

  lemma TotalSnoc(m: seq<byte>, check: byte)
    ensures Total(m + [check]) == Total(m) + check
  {
    assert (m + [check])[..|m|] == m;
  }

  /** One checksum byte fits, and no other. */
  lemma CheckFits(m: seq<byte>, check: byte)
    ensures Total(m + [check]) % 0x100 == 0xFF <==> check == Check(m)
  {
    TotalSnoc(m, check);
    hide Total;
    OnlyOne(Total(m), check);
  }

  lemma OnlyOne(total: nat, check: byte)
    ensures (total + check) % 0x100 == 0xFF <==> check == 0xFF - total % 0x100
  {
    assert total == total / 0x100 * 0x100 + total % 0x100;
  }

  /** Every command gets through, behind any junk without a prefix byte, and the parser goes on behind it. */
  lemma CommandAccepted(dataSize: nat, junk: seq<byte>, c: Command, sn: byte, rest: seq<byte>)
    requires Proper(c) && |Payload(c)| < dataSize && forall k | 0 <= k < |junk| :: junk[k] != 0xBE
    ensures Parse(dataSize, junk + (MessageBytes(TypeByte(c), sn, Payload(c)) + rest))
         == [Got(TypeByte(c), sn, Payload(c))] + Parse(dataSize, rest)
  {
    hide Parse, Total, Check;
    var typ, p := TypeByte(c), Payload(c);
    var check := Check(Head(typ, sn, p));
    CheckFits(Head(typ, sn, p), check);
    MessageDecided(dataSize, junk, typ, sn, p, check, rest);
    CommandsFit(dataSize, c);
    hide Payload, TypeByte, Head;
  }

  lemma CommandsFit(dataSize: nat, c: Command)
    requires Proper(c) && |Payload(c)| < dataSize
    ensures LengthFits(dataSize, TypeByte(c), |Payload(c)|)
    ensures var p := Payload(c);
            TypeByte(c) == 0x00 ==>
              && |p| == (if p[0] == 0xE1 || p[0] == 0xE2 then 5 else 1)
              && (p[0] == 0xE1 || p[0] == 0xE2 || p[0] == 0xE3 || p[0] == 0xF1 || p[0] == 0xF2)
  {
  }

  /** Conversely, what is accepted first of a stream as SYS, READ or WRITE is such a command, with nothing
      before it that looks like the start of a message, and the parser goes on behind it. */
  lemma AcceptedIsCommand(dataSize: nat, s: seq<byte>)
    returns (junk: seq<byte>, c: Command, sn: byte, rest: seq<byte>)
    requires var events := Parse(dataSize, s); events != [] && events[0].Got? && events[0].typ <= 0x02
    ensures Proper(c) && |Payload(c)| < dataSize && forall k | 0 <= k < |junk| :: junk[k] != 0xBE
    ensures s == junk + (MessageBytes(TypeByte(c), sn, Payload(c)) + rest)
    ensures Parse(dataSize, s) == [Got(TypeByte(c), sn, Payload(c))] + Parse(dataSize, rest)
  {
    var typ, payload, check;
    junk, typ, sn, payload, check, rest := FirstMessage(dataSize, s);
    hide Parse, Total, Head, Check;
    MessageDecided(dataSize, junk, typ, sn, payload, check, rest);
    c := CommandOf(typ, payload);
    CheckFits(Head(typ, sn, payload), check);
  }

  lemma FirstMessage(dataSize: nat, s: seq<byte>)
    returns (junk: seq<byte>, typ: byte, sn: byte, payload: seq<byte>, check: byte, rest: seq<byte>)
    requires var events := Parse(dataSize, s); events != [] && events[0].Got? && events[0].typ <= 0x02
    ensures (forall k | 0 <= k < |junk| :: junk[k] != 0xBE) && typ <= 0x02
    ensures |payload| <= 20 && LengthFits(dataSize, typ, |payload|)
    ensures s == junk + (Head(typ, sn, payload) + [check] + rest)
  {
    var p := FirstPrefix(s);
    junk := s[..p];
    ParseFrom(dataSize, s);
    typ, sn, payload, check, rest := MessageAt(dataSize, s[p..]);
    assert s == junk + s[p..];
  }

  lemma ParseFrom(dataSize: nat, s: seq<byte>)
    requires Parse(dataSize, s) != []
    ensures var p := FirstPrefix(s); |s| >= p + 4 && Parse(dataSize, s) == Message(dataSize, s[p..])
  {
    hide Message;
  }

  lemma MessageAt(dataSize: nat, t: seq<byte>)
    returns (typ: byte, sn: byte, payload: seq<byte>, check: byte, rest: seq<byte>)
    requires |t| >= 4 && t[0] == 0xBE
    requires var events := Message(dataSize, t); events != [] && events[0].Got? && events[0].typ <= 0x02
    ensures typ <= 0x02 && |payload| <= 20 && LengthFits(dataSize, typ, |payload|)
    ensures t == Head(typ, sn, payload) + [check] + rest
  {
    hide Parse;
    var n: nat := t[3];
    assert |t| >= 5 + n;
    payload := t[4..4 + n];
    typ, sn, check, rest := t[1], t[2], t[4 + n], t[5 + n..];
  }

  lemma CommandOf(typ: byte, payload: seq<byte>) returns (c: Command)
    requires typ <= 0x02 && |payload| < 0x100 && LengthFits(0x100, typ, |payload|)
    requires typ == 0x00 ==>
               && |payload| == (if payload[0] == 0xE1 || payload[0] == 0xE2 then 5 else 1)
               && (payload[0] == 0xE1 || payload[0] == 0xE2 || payload[0] == 0xE3 || payload[0] == 0xF1
                   || payload[0] == 0xF2)
    ensures Proper(c) && TypeByte(c) == typ && Payload(c) == payload
  {
    if typ == 0x01 {
      c := Reading(payload);
    } else if typ == 0x02 {
      c := Writing(payload[..4], payload[4..]);
    } else if payload[0] == 0xE1 {
      c := SetBootmode(payload[1..]);
    } else if payload[0] == 0xE2 {
      c := ClearBootmode(payload[1..]);
    } else if payload[0] == 0xE3 {
      c := GetBootmode;
    } else if payload[0] == 0xF1 {
      c := Reboot;
    } else {
      c := Shutdown;
    }
  }

  /** A reply to a message is a message with the same type and number. */
  lemma ReplyIsMessage(typ: byte, sn: byte, payload: seq<byte>)
    requires |payload| <= 250
    ensures Reply(typ, sn, payload) == MessageBytes(typ, sn, payload)
  {
    var m := Head(typ, sn, payload);
    SumIsTotal(m);
    assert m[..|m|] == m;
    hide Sum, Total;
  }

  /** So every message of a stream accepted as SYS, READ or WRITE is a command. */
  lemma {:induction false} AllAreCommands(dataSize: nat, s: seq<byte>, k: nat)
    requires k < |Parse(dataSize, s)|
    ensures var e := Parse(dataSize, s)[k];
            e.Got? && e.typ <= 0x02 ==>
              exists c :: Proper(c) && |Payload(c)| < dataSize && TypeByte(c) == e.typ && Payload(c) == e.payload
    decreases |s|
  {
    var events := Parse(dataSize, s);
    if k == 0 {
      if events[0].Got? && events[0].typ <= 0x02 {
        var junk, c, sn, rest := AcceptedIsCommand(dataSize, s);
      }
    } else {
      var rest := RestOf(dataSize, s);
      AllAreCommands(dataSize, rest, k - 1);
    }
  }

  /** The events behind the first one are those of a shorter stream. */
  lemma RestOf(dataSize: nat, s: seq<byte>) returns (rest: seq<byte>)
    requires |Parse(dataSize, s)| > 1
    ensures |rest| < |s| && Parse(dataSize, s) == [Parse(dataSize, s)[0]] + Parse(dataSize, rest)
  {
    var t := s[FirstPrefix(s)..];
    rest := t[5 + t[3]..];
    hide Judge, FirstPrefix;
  }
}
