/**
 tad/dsl.py: packet layers and their stacks, and the NDN text they compile to.

 Arguments are taken after int(), ipaddress.IPv4Address() or the removal of MAC separators have read them.
 */
module Ndn {
  import opened Common

  /** A value of the NDN text. */
  datatype Val =
    | PlainInt(n: int)
    | Bare(n: int)
    | PlainStr(s: string)
    | PlainHex(bytes: seq<byte>)
    | Choice(name: string)
    | Fd(n: int)

  datatype Value = IntValue(n: int) | StrValue(s: string) | OctetsValue(bytes: seq<byte>) | True

  datatype Format = DuInt | Int | DuStr | DuIp4 | DuMac | SocketType(choice: string) | SocketFd

  datatype Field = Field(kwarg: string, ndn: string, format: Format, csapOnly: bool)
  datatype Protocol = Protocol(name: string, fields: seq<Field>)
  datatype Layer = Layer(protocol: Protocol, given: map<string, Value>)

  const ETHER: Protocol := Protocol("eth", [
    Field("device", "device-id", DuStr, true),
    Field("recv_mode", "receive-mode", Int, true),
    Field("local_mac", "local-addr", DuMac, true),
    Field("remote_mac", "remote-addr", DuMac, true),
    Field("dst", "dst-addr", DuMac, false),
    Field("src", "src-addr", DuMac, false),
    Field("ether_type", "ether-type", DuInt, false)])

  const IP4: Protocol := Protocol("ip4", [
    Field("local", "local-addr", DuIp4, true),
    Field("remote", "remote-addr", DuIp4, true),
    Field("ttl", "time-to-live", DuInt, false),
    Field("protocol", "protocol", DuInt, false),
    Field("src", "src-addr", DuIp4, false),
    Field("dst", "dst-addr", DuIp4, false)])

  const UDP: Protocol := Protocol("udp", [
    Field("local_port", "local-port", DuInt, true),
    Field("remote_port", "remote-port", DuInt, true),
    Field("src_port", "src-port", DuInt, false),
    Field("dst_port", "dst-port", DuInt, false)])

  const TCP: Protocol := Protocol("tcp", [
    Field("local_port", "local-port", DuInt, true),
    Field("remote_port", "remote-port", DuInt, true),
    Field("src_port", "src-port", DuInt, false),
    Field("dst_port", "dst-port", DuInt, false),
    Field("seqn", "seqn", DuInt, false),
    Field("ackn", "ackn", DuInt, false),
    Field("flags", "flags", DuInt, false),
    Field("win_size", "win-size", DuInt, false)])

  const ICMP4: Protocol := Protocol("icmp4", [
    Field("type", "type", DuInt, false),
    Field("code", "code", DuInt, false)])

  const SOCKET: Protocol := Protocol("socket", [
    Field("udp", "type", SocketType("udp"), true),
    Field("tcp_server", "type", SocketType("tcp-server"), true),
    Field("tcp_client", "type", SocketType("tcp-client"), true),
    Field("fd", "type", SocketFd, true),
    Field("local", "local-addr", DuIp4, true),
    Field("remote", "remote-addr", DuIp4, true),
    Field("local_port", "local-port", DuInt, true),
    Field("remote_port", "remote-port", DuInt, true)])

  datatype Fault = Conflict(ndn: string) | BadValue(kwarg: string) | TwoPayloads

  /** A formatter; None is its ValueError. */
  function Formatted(f: Format, v: Value): Option<Val> {
    match (f, v)
    case (DuInt, IntValue(n)) => Some(PlainInt(n))
    case (Int, IntValue(n)) => Some(Bare(n))
    case (DuStr, StrValue(s)) => Some(PlainStr(s))
    case (DuIp4, OctetsValue(b)) => if |b| == 4 then Some(PlainHex(b)) else None
    case (DuMac, OctetsValue(b)) => if |b| == 6 then Some(PlainHex(b)) else None
    case (SocketType(choice), True) => Some(Choice(choice))
    case (SocketFd, IntValue(n)) => Some(Fd(n))
    case _ => None
  }

  type Item = (string, Val)

  predicate IsShown(f: Field, given: map<string, Value>, csap: bool) {
    f.csapOnly == csap && f.kwarg in given
  }

  datatype Row = Row(items: seq<Item>, seen: set<string>)

  /** The items of a layer, up to the first NDN field named twice or value refused. */
  function Scan(fields: seq<Field>, given: map<string, Value>, csap: bool): Result<Row, Fault> {
    if fields == [] then Ok(Row([], {}))
    else
      var f := fields[|fields| - 1];
      var row :- Scan(fields[..|fields| - 1], given, csap);
      if !IsShown(f, given, csap) then Ok(row) else Scan1(row, f, given[f.kwarg])
  }

  function Scan1(row: Row, f: Field, v: Value): Result<Row, Fault> {
    if f.ndn in row.seen then Err(Conflict(f.ndn))
    else match Formatted(f.format, v)
      case None => Err(BadValue(f.kwarg))
      case Some(x) => Ok(Row(row.items + [(f.ndn, x)], row.seen + {f.ndn}))
  }

  function ItemsOf(l: Layer, csap: bool): Result<seq<Item>, Fault> {
    var row :- Scan(l.protocol.fields, l.given, csap);
    Ok(row.items)
  }

  // ---- text ----

  function Digit(n: nat): char
    requires n < 16
  {
    "0123456789ABCDEF"[n]
  }

  function NatText(n: nat): string {
    if n < 10 then [Digit(n)] else NatText(n / 10) + [Digit(n % 10)]
  }

  function IntText(n: int): string {
    if n < 0 then "-" + NatText(-n) else NatText(n)
  }

  function HexText(b: seq<byte>): string {
    if b == [] then "" else [Digit(b[0] / 16), Digit(b[0] % 16)] + HexText(b[1..])
  }

  /** str.replace of one character. */
  function Replaced(s: string, c: char, text: string): string {
    if s == "" then "" else (if s[0] == c then text else [s[0]]) + Replaced(s[1..], c, text)
  }

  function Escaped(s: string): string {
    Replaced(Replaced(s, '\\', "\\\\"), '"', "\\\"")
  }

  function ValText(v: Val): string {
    match v
    case PlainInt(n) => "plain:" + IntText(n)
    case Bare(n) => IntText(n)
    case PlainStr(s) => "plain:\"" + Escaped(s) + "\""
    case PlainHex(b) => "plain:'" + HexText(b) + "'H"
    case Choice(name) => name + ":NULL"
    case Fd(n) => "file-descr:" + IntText(n)
  }

  function ItemText(i: Item): string { i.0 + " " + ValText(i.1) }

  function Join(parts: seq<string>): string {
    if parts == [] then "" else if |parts| == 1 then parts[0] else parts[0] + ", " + Join(parts[1..])
  }

  function ItemTexts(items: seq<Item>): seq<string> {
    seq(|items|, i requires 0 <= i < |items| => ItemText(items[i]))
  }

  function BodyText(items: seq<Item>): string {
    if items == [] then "{}" else "{ " + Join(ItemTexts(items)) + " }"
  }

  type Block = (string, seq<Item>)

  function BlockText(b: Block): string { b.0 + ":" + BodyText(b.1) }

  function BlockTexts(blocks: seq<Block>): seq<string> {
    seq(|blocks|, i requires 0 <= i < |blocks| => BlockText(blocks[i]))
  }

  function Blocks(layers: seq<Layer>, csap: bool): Result<seq<Block>, Fault> {
    if layers == [] then Ok([])
    else
      var items :- ItemsOf(layers[0], csap);
      var rest :- Blocks(layers[1..], csap);
      Ok([(layers[0].protocol.name, items)] + rest)
  }

  function PdusText(blocks: seq<Block>): string { "pdus { " + Join(BlockTexts(blocks)) + " }" }

  function SpecText(blocks: seq<Block>): string { "{ layers { " + Join(BlockTexts(blocks)) + " } }" }

  function TemplateText(blocks: seq<Block>, payload: Option<seq<byte>>): string {
    "{ " + PdusText(blocks) + EndText(payload)
  }

  function EndText(payload: Option<seq<byte>>): string {
    if payload.None? then " }" else ", payload bytes:'" + HexText(payload.value) + "'H }"
  }

  function PatternText(blocks: seq<Block>): string { "{ { " + PdusText(blocks) + " } }" }

  /** Layer._text: one pass over the table, with the NDN fields seen so far. */
  method Text(l: Layer, csap: bool) returns (r: Result<string, Fault>)
    ensures r == match ItemsOf(l, csap) case Ok(items) => Ok(BodyText(items)) case Err(e) => Err(e)
  {
    hide ItemText, Formatted, Scan, BodyText;
    var fields, given := l.protocol.fields, l.given;
    var parts: seq<string>, seen: set<string> := [], {};
    ghost var items: seq<Item> := [];
    ScanNothing(given, csap);
    for i := 0 to |fields|
      invariant Scan(fields[..i], given, csap) == Ok(Row(items, seen))
      invariant parts == ItemTexts(items)
    {
      var f := fields[i];
      ScanMore(fields, i, given, csap);
      if f.csapOnly != csap || f.kwarg !in given {
        continue;
      }
      var v := Formatted(f.format, given[f.kwarg]);
      if f.ndn in seen {
        FaultStays(fields, i + 1, given, csap);
        return Err(Conflict(f.ndn));
      }
      if v.None? {
        FaultStays(fields, i + 1, given, csap);
        return Err(BadValue(f.kwarg));
      }
      seen := seen + {f.ndn};
      parts := parts + [ItemText((f.ndn, v.value))];
      items := items + [(f.ndn, v.value)];
    }
    assert fields[..|fields|] == fields;
    BodyOf(items);
    return Ok(if parts != [] then "{ " + Join(parts) + " }" else "{}");
  }

  lemma {:induction false} BodyOf(items: seq<Item>)
    ensures BodyText(items) == var parts := ItemTexts(items); if parts != [] then "{ " + Join(parts) + " }" else "{}"
  {
  }

  lemma {:induction false} ScanNothing(given: map<string, Value>, csap: bool)
    ensures Scan([], given, csap) == Ok(Row([], {}))
  {
  }

  lemma {:induction false} ScanMore(fields: seq<Field>, i: nat, given: map<string, Value>, csap: bool)
    requires i < |fields|
    ensures Scan(fields[..i + 1], given, csap) ==
            match Scan(fields[..i], given, csap)
            case Err(e) => Err(e)
            case Ok(row) => if IsShown(fields[i], given, csap) then Scan1(row, fields[i], given[fields[i].kwarg])
              else Ok(row)
  {
    hide Scan1;
    assert fields[..i + 1][..i] == fields[..i];
  }

  /** The first fault is the one that is raised. */
  lemma {:induction false} FaultStays(fields: seq<Field>, i: nat, given: map<string, Value>, csap: bool)
    requires i <= |fields| && Scan(fields[..i], given, csap).Err?
    ensures Scan(fields, given, csap) == Scan(fields[..i], given, csap)
    decreases |fields| - i
  {
    hide Scan;
    if i < |fields| {
      ScanMore(fields, i, given, csap);
      FaultStays(fields, i + 1, given, csap);
    } else {
      assert fields[..i] == fields;
    }
  }

  // ---- stacks ----

  datatype Stack = Stack(layers: seq<Layer>, payload: Option<seq<byte>>)

  datatype Operand = OneLayer(layer: Layer) | WholeStack(stack: Stack) | Bytes(bytes: seq<byte>)

  /** Stack.__truediv__ */
  function Over(s: Stack, x: Operand): Result<Stack, Fault> {
    match x
    case OneLayer(l) => Ok(s.(layers := s.layers + [l]))
    case WholeStack(t) =>
      if s.payload.Some? && t.payload.Some? then Err(TwoPayloads)
      else Ok(Stack(s.layers + t.layers, if t.payload.Some? then t.payload else s.payload))
    case Bytes(b) => if s.payload.Some? then Err(TwoPayloads) else Ok(Stack(s.layers, Some(b)))
  }

  /** x / y for any x that has the operator. */
  function Divided(x: Operand, y: Operand): Result<Operand, Fault>
    requires !x.Bytes?
  {
    var s :- Over(if x.OneLayer? then Stack([x.layer], None) else x.stack, y);
    Ok(WholeStack(s))
  }
}
