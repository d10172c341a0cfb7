/** The text of the generated sing-box configuration, and a reader of JSON strings (RFC 8259 section 7) for it. */
module SingBoxConfig {
  import opened Common
  import opened Text

  const HEX := "0123456789abcdef"

  /** What one character becomes inside a JSON string. */
  function EscapeChar(c: char): (e: string)
    ensures e != []
  {
    if c == '"' then ['\\', '"']
    else if c == '\\' then ['\\', '\\']
    else if c == '\U{0008}' then ['\\', 'b']
    else if c == '\U{000C}' then ['\\', 'f']
    else if c == '\n' then ['\\', 'n']
    else if c == '\r' then ['\\', 'r']
    else if c == '\t' then ['\\', 't']
    else if c as int < 0x20 then ['\\', 'u', '0', '0', HEX[c as int / 16], HEX[c as int % 16]]
    else [c]
  }

  function Escape(input: string): string {
    if input == "" then "" else EscapeChar(input[0]) + Escape(input[1..])
  }

  method JsonEscape(input: string) returns (escaped: string)
    ensures escaped == Escape(input)
  {
    escaped := "";
    for i := 0 to |input|
      invariant escaped + Escape(input[i..]) == Escape(input)
    {
      assert input[i..][1..] == input[i + 1..];
      ConcatAssociates(escaped, EscapeChar(input[i]), Escape(input[i + 1..]));
      escaped := escaped + EscapeChar(input[i]);
    }
  }

  function Quoted(s: string): string { ['"'] + Escape(s) + ['"'] }

  /** The elements after the first. */
  function MoreElements(values: seq<string>): string {
    if values == [] then "" else [',', ' '] + Quoted(values[0]) + MoreElements(values[1..])
  }

  function Elements(values: seq<string>): string {
    if values == [] then "" else Quoted(values[0]) + MoreElements(values[1..])
  }

  function StringArray(values: seq<string>): string { ['['] + Elements(values) + [']'] }

  lemma {:induction false} MoreSnoc(values: seq<string>, last: string)
    ensures MoreElements(values + [last]) == MoreElements(values) + [',', ' '] + Quoted(last)
  {
    if values != [] {
      MoreSnoc(values[1..], last);
      assert (values + [last])[1..] == values[1..] + [last];
    }
  }

  lemma ElementsSnoc(values: seq<string>, last: string)
    ensures Elements(values + [last]) ==
      if values == [] then Quoted(last) else Elements(values) + [',', ' '] + Quoted(last)
  {
    if values == [] {
      assert Elements([last]) == Quoted(last) + "" == Quoted(last);
    } else {
      MoreSnoc(values[1..], last);
      assert (values + [last])[1..] == values[1..] + [last];
      Regroup4(Quoted(values[0]), MoreElements(values[1..]), [',', ' '], Quoted(last));
    }
  }

  lemma Regroup4(a: string, b: string, c: string, d: string)
    ensures a + b + c + d == a + (b + c + d)
  {
  }

  /** The text once `index` elements are written. */
  ghost function Written(values: seq<string>, index: nat): string
    requires index <= |values|
  {
    ['['] + Elements(values[..index])
  }

  lemma TakeSnoc<T>(s: seq<T>, i: nat)
    requires i < |s|
    ensures s[..i + 1] == s[..i] + [s[i]]
  {
  }

  lemma WriteStep(values: seq<string>, index: nat)
    requires index < |values|
    ensures Written(values, index + 1) ==
      (if index != 0 then Written(values, index) + [',', ' '] else Written(values, index)) + Quoted(values[index])
  {
    ElementsSnoc(values[..index], values[index]);
    TakeSnoc(values, index);
    Regroup4(['['], Elements(values[..index]), [',', ' '], Quoted(values[index]));
  }

  method WriteStringArray(values: seq<string>) returns (output: string)
    ensures output == StringArray(values)
  {
    output := "[";
    for index := 0 to |values|
      invariant output == Written(values, index)
    {
      var escaped := JsonEscape(values[index]);
      WriteStep(values, index);
      output := WriteElement(output, index != 0, escaped);
    }
    assert values[..|values|] == values;
    output := output + "]";
  }

  /** One element of the list: a separator unless it is the first, then the quoted text. */
  method WriteElement(output: string, separated: bool, escaped: string) returns (longer: string)
    ensures longer == (if separated then output + [',', ' '] else output) + (['"'] + escaped + ['"'])
  {
    longer := output;
    if separated {
      longer := longer + ", ";
    }
    longer := longer + "\"" + escaped + "\"";
  }

  // ----- reading JSON

  function HexValue(c: char): Option<nat> {
    if '0' <= c <= '9' then Some(c as int - '0' as int)
    else if 'a' <= c <= 'f' then Some(c as int - 'a' as int + 10)
    else if 'A' <= c <= 'F' then Some(c as int - 'A' as int + 10)
    else None
  }

  /** Four hexadecimal digits of a control or other single-unit character; surrogates are not read. */
  function ReadHex4(t: string): Option<char> {
    if |t| < 4 || HexValue(t[0]).None? || HexValue(t[1]).None? || HexValue(t[2]).None? || HexValue(t[3]).None? then None
    else
      var code := ((HexValue(t[0]).value * 16 + HexValue(t[1]).value) * 16 + HexValue(t[2]).value) * 16 + HexValue(t[3]).value;
      if 0xD800 <= code < 0xE000 || 0x1_0000 <= code then None else Some(code as char)
  }

  /** The character an escape after the backslash denotes, and how many characters it takes. */
  function ReadEscape(t: string): Option<(char, nat)> {
    if t == "" then None
    else match t[0]
      case '"' => Some(('"', 1))
      case '\\' => Some(('\\', 1))
      case '/' => Some(('/', 1))
      case 'b' => Some(('\U{0008}', 1))
      case 'f' => Some(('\U{000C}', 1))
      case 'n' => Some(('\n', 1))
      case 'r' => Some(('\r', 1))
      case 't' => Some(('\t', 1))
      case 'u' =>
        var c := ReadHex4(t[1..]);
        if c.None? then None else Some((c.value, 5))
      case _ => None
  }

  datatype Read<+T> = Bad | Good(value: T, rest: string)

  /** The body of a string up to its closing quote; control characters must be escaped. */
  function ReadBody(t: string): (r: Read<string>)
    ensures r.Good? ==> |r.rest| < |t|
    decreases |t|
  {
    if t == "" || (t[0] as int < 0x20) then Bad
    else if t[0] == '"' then Good("", t[1..])
    else if t[0] == '\\' then
      var e := ReadEscape(t[1..]);
      if e.None? || |t| < 1 + e.value.1 then Bad
      else
        match ReadBody(t[1 + e.value.1..])
        case Bad => Bad
        case Good(s, rest) => Good([e.value.0] + s, rest)
    else
      match ReadBody(t[1..])
      case Bad => Bad
      case Good(s, rest) => Good([t[0]] + s, rest)
  }

  function ReadString(t: string): (r: Read<string>)
    ensures r.Good? ==> |r.rest| < |t|
  {
    if t == "" || t[0] != '"' then Bad else ReadBody(t[1..])
  }

  function SkipSpace(t: string): (r: string)
    ensures |r| <= |t|
  {
    if t != "" && (t[0] == ' ' || t[0] == '\n' || t[0] == '\r' || t[0] == '\t') then SkipSpace(t[1..]) else t
  }

  /** What follows an element: the end of the array, or a comma and the next element. */
  function ReadMore(t: string): (r: Read<seq<string>>)
    ensures r.Good? ==> |r.rest| < |t|
    decreases |t|
  {
    var next := SkipSpace(t);
    if next == "" then Bad
    else if next[0] == ']' then Good([], next[1..])
    else if next[0] != ',' then Bad
    else
      match ReadString(SkipSpace(next[1..]))
      case Bad => Bad
      case Good(s, rest) =>
        match ReadMore(rest)
        case Bad => Bad
        case Good(values, after) => Good([s] + values, after)
  }

  function ReadStringArray(t: string): (r: Read<seq<string>>)
    ensures r.Good? ==> |r.rest| < |t|
  {
    if t == "" || t[0] != '[' then Bad
    else
      var first := SkipSpace(t[1..]);
      if first != "" && first[0] == ']' then Good([], first[1..])
      else
        match ReadString(first)
        case Bad => Bad
        case Good(s, rest) =>
          match ReadMore(rest)
          case Bad => Bad
          case Good(values, after) => Good([s] + values, after)
  }

  // ----- the reader inverts the writer

  /** The result of a body that starts with `c`, given what the rest reads as. */
  function Prefixed(c: char, rest: Read<string>): Read<string> {
    match rest
    case Bad => Bad
    case Good(s, after) => Good([c] + s, after)
  }

  lemma ReadPlain(c: char, t: string)
    requires c as int >= 0x20 && c != '"' && c != '\\'
    ensures ReadBody([c] + t) == Prefixed(c, ReadBody(t))
  {
    assert ([c] + t)[1..] == t;
  }

  lemma ReadEscaped(c: char, escape: string, t: string)
    requires ReadEscape(escape + t) == Some((c, |escape|))
    ensures ReadBody(['\\'] + escape + t) == Prefixed(c, ReadBody(t))
  {
    var text := ['\\'] + escape + t;
    assert text[1..] == escape + t;
    assert text[1 + |escape|..] == t;
  }

  lemma ReadEscapeUnicode(c: char, t: string)
    requires c as int < 0x20
    ensures ReadEscape(['u', '0', '0', HEX[c as int / 16], HEX[c as int % 16]] + t) == Some((c, 5))
  {
    var text := ['u', '0', '0', HEX[c as int / 16], HEX[c as int % 16]] + t;
    ReadControl(c, t);
    assert text[1..] == ['0', '0', HEX[c as int / 16], HEX[c as int % 16]] + t;
  }

  lemma ReadOneEscaped(c: char, t: string)
    ensures ReadBody(EscapeChar(c) + t) == Prefixed(c, ReadBody(t))
  {
    var e := EscapeChar(c);
    if e == [c] {
      ReadPlain(c, t);
    } else {
      if |e| == 6 { ReadEscapeUnicode(c, t); }
      assert e == ['\\'] + e[1..];
      ReadEscaped(c, e[1..], t);
    }
  }

  lemma HexDigits(n: nat)
    requires n < 16
    ensures HexValue(HEX[n]) == Some(n)
  {
  }

  lemma ReadControl(c: char, t: string)
    requires c as int < 0x20
    ensures ReadHex4(['0', '0', HEX[c as int / 16], HEX[c as int % 16]] + t) == Some(c)
  {
    HexDigits(c as int / 16);
    HexDigits(c as int % 16);
  }

  /** A written string ends exactly at its closing quote, whatever text follows. */
  lemma {:induction false} ReadInvertsEscape(s: string, after: string)
    ensures ReadBody(Escape(s) + ['"'] + after) == Good(s, after)
  {
    if s == "" {
      assert (['"'] + after)[1..] == after;
      assert Escape(s) + ['"'] + after == ['"'] + after;
    } else {
      var tail := Escape(s[1..]) + ['"'] + after;
      ReadInvertsEscape(s[1..], after);
      ReadOneEscaped(s[0], tail);
      Regroup4(EscapeChar(s[0]), Escape(s[1..]), ['"'], after);
      assert [s[0]] + s[1..] == s;
    }
  }

  lemma ReadQuoted(s: string, after: string)
    ensures ReadString(Quoted(s) + after) == Good(s, after)
  {
    ReadInvertsEscape(s, after);
    var body := Escape(s) + ['"'] + after;
    Regroup4(['"'], Escape(s), ['"'], after);
    assert (['"'] + body)[1..] == body;
  }

  lemma {:induction false} ReadInvertsMore(values: seq<string>, after: string)
    ensures ReadMore(MoreElements(values) + [']'] + after) == Good(values, after)
  {
    if values == [] {
      assert MoreElements(values) + [']'] + after == [']'] + after;
      assert ([']'] + after)[1..] == after;
    } else {
      var rest := MoreElements(values[1..]) + [']'] + after;
      ReadInvertsMore(values[1..], after);
      ReadQuoted(values[0], rest);
      ReadNextElement(Quoted(values[0]) + rest, values[0], rest, values[1..], after);
      Regroup5([',', ' '], Quoted(values[0]), MoreElements(values[1..]), [']'], after);
      assert [values[0]] + values[1..] == values;
    }
  }

  lemma Regroup5(a: string, b: string, c: string, d: string, e: string)
    ensures a + b + c + d + e == a + (b + (c + d + e))
  {
    Regroup4(a, b, c, d);
    Regroup4(b, c, d, e);
    ConcatAssociates(a, b + (c + d), e);
    ConcatAssociates(b, c + d, e);
  }

  lemma ReadNextElement(text: string, first: string, rest: string, values: seq<string>, after: string)
    requires text != "" && text[0] == '"'
    requires ReadString(text) == Good(first, rest) && ReadMore(rest) == Good(values, after)
    ensures ReadMore([',', ' '] + text) == Good([first] + values, after)
  {
    var all := [',', ' '] + text;
    assert all[1..] == [' '] + text && ([' '] + text)[1..] == text;
    assert SkipSpace([' '] + text) == SkipSpace(text) == text;
  }

  /** The array writer is inverted by the array reader, for any strings and any following text. */
  lemma ReadInvertsStringArray(values: seq<string>, after: string)
    ensures ReadStringArray(StringArray(values) + after) == Good(values, after)
  {
    if values == [] {
      ReadEmptyArray(after);
    } else {
      var rest := MoreElements(values[1..]) + [']'] + after;
      ReadQuoted(values[0], rest);
      ReadInvertsMore(values[1..], after);
      NonEmptyArrayText(values, after);
      ReadNonEmptyArray(Quoted(values[0]) + rest, values[0], rest, values[1..], after);
      assert [values[0]] + values[1..] == values;
    }
  }

  lemma ReadEmptyArray(after: string)
    ensures ReadStringArray(StringArray([]) + after) == Good([], after)
  {
    assert StringArray([]) + after == ['['] + ([']'] + after);
    assert (['['] + ([']'] + after))[1..] == [']'] + after && ([']'] + after)[1..] == after;
  }

  lemma NonEmptyArrayText(values: seq<string>, after: string)
    requires values != []
    ensures StringArray(values) + after ==
      ['['] + (Quoted(values[0]) + (MoreElements(values[1..]) + [']'] + after))
  {
    Regroup4(['['], Elements(values), [']'], after);
    Regroup4(Quoted(values[0]), MoreElements(values[1..]), [']'], after);
  }

  lemma ReadNonEmptyArray(text: string, first: string, rest: string, values: seq<string>, after: string)
    requires text != "" && text[0] == '"'
    requires ReadString(text) == Good(first, rest) && ReadMore(rest) == Good(values, after)
    ensures ReadStringArray(['['] + text) == Good([first] + values, after)
  {
    assert (['['] + text)[1..] == text;
  }

  // ----- the configuration document

  datatype RuntimeConfig = RuntimeConfig(
    logFile: string,
    upstreamAddress: string,
    upstreamPort: nat,
    bypassCidrs: seq<string>,
    autoRedirect: bool,
    interfaceName: string)

  /** The fixed parts of the document, in order. */
  datatype Fixed =
    | Log | DnsAndInbound | TunAddress | TunRoutes | Outbound | OutboundPort
    | Route | FirstRule | RouteAction | DnsRule | UdpRule | Final

  const IP_CIDR := "\"ip_cidr\""
  const ACTION_ROUTE := "\"action\": \"route\""
  const OUTBOUND_DIRECT := "\"outbound\": \"direct\""
  const PORT_53 := "\"port\": 53"
  const ACTION_HIJACK := "\"action\": \"hijack-dns\""
  const NETWORK_UDP := "\"network\": \"udp\""
  const ACTION_REJECT := "\"action\": \"reject\""
  const FINAL_PROXY := "\"final\": \"proxy\""
  const AUTO_DETECT := "\"auto_detect_interface\": true"
  const CLOSE_ROUTE := "\n  }\n}\n"

  function TwoInBraces(a: string, b: string): string { ['{'] + ((a + ([',', ' '] + b)) + ['}']) }

  function Indented(t: string): string { ['\n'] + ([' '] + ([' '] + ([' '] + ([' '] + t)))) }

  // The fixed text of the route rules, around the one array.
  const FIRST_RULE := ['[', '{'] + (IP_CIDR + [':', ' '])
  const ROUTE_ACTION := [',', ' '] + ((ACTION_ROUTE + ([',', ' '] + OUTBOUND_DIRECT)) + ['}'])
  const DNS_RULE := [',', ' '] + TwoInBraces(PORT_53, ACTION_HIJACK)
  const UDP_RULE := [',', ' '] + TwoInBraces(NETWORK_UDP, ACTION_REJECT)
  const AFTER_RULES := [','] + Indented((FINAL_PROXY + ([',', ' '] + AUTO_DETECT)) + CLOSE_ROUTE)
  const FINAL := [']'] + AFTER_RULES

  function FixedText(part: Fixed): string {
    match part
    case Log => "{\n  \"log\": {\"level\": \"info\", \"timestamp\": true, \"output\": "
    case DnsAndInbound =>
      "},\n  \"dns\": {\n    \"servers\": [{\"type\": \"https\", \"tag\": \"proxy-doh\", " +
      "\"server\": \"1.1.1.1\", \"server_port\": 443, \"path\": \"/dns-query\", " +
      "\"tls\": {\"enabled\": true, \"server_name\": \"cloudflare-dns.com\"}, \"detour\": \"proxy\"}],\n" +
      "    \"final\": \"proxy-doh\", \"strategy\": \"prefer_ipv4\"\n  },\n  \"inbounds\": [{\n" +
      "    \"type\": \"tun\", \"tag\": \"tun-in\", \"interface_name\": "
    case TunAddress =>
      ",\n    \"address\": [\"198.18.0.1/30\"], \"mtu\": 1500, \"auto_route\": true,\n    \"auto_redirect\": "
    case TunRoutes => ", \"strict_route\": true, \"stack\": \"system\",\n    \"route_exclude_address\": "
    case Outbound => "\n  }],\n  \"outbounds\": [{\n    \"type\": \"socks\", \"tag\": \"proxy\", \"server\": "
    case OutboundPort => ", \"server_port\": "
    case Route =>
      ", \"version\": \"5\", \"network\": \"tcp\"\n  }, {\"type\": \"direct\", \"tag\": \"direct\"}],\n" +
      "  \"route\": {\n    \"rules\": "
    case FirstRule => FIRST_RULE
    case RouteAction => ROUTE_ACTION
    case DnsRule => DNS_RULE
    case UdpRule => UDP_RULE
    case Final => FINAL
  }

  /** The document is fixed text with JSON strings, string arrays, a flag and a number in between. */
  datatype Piece = Part(part: Fixed) | Str(value: string) | List(values: seq<string>) | Flag(set_: bool) | Number(n: nat)

  function PieceText(piece: Piece): string {
    match piece
    case Part(part) => FixedText(part)
    case Str(value) => Quoted(value)
    case List(values) => StringArray(values)
    case Flag(set_) => if set_ then "true" else "false"
    case Number(n) => Show(n)
  }

  function Render(pieces: seq<Piece>): string {
    if pieces == [] then "" else PieceText(pieces[0]) + Render(pieces[1..])
  }

  function ConfigPieces(c: RuntimeConfig): seq<Piece> {
    [Part(Log), Str(c.logFile), Part(DnsAndInbound), Str(c.interfaceName), Part(TunAddress), Flag(c.autoRedirect),
     Part(TunRoutes), List(c.bypassCidrs), Part(Outbound), Str(c.upstreamAddress), Part(OutboundPort),
     Number(c.upstreamPort), Part(Route), Part(FirstRule), List(c.bypassCidrs), Part(RouteAction), Part(DnsRule),
     Part(UdpRule), Part(Final)]
  }

  method BuildSingBoxConfig(c: RuntimeConfig) returns (r: Result<string>)
    ensures r.Success? <==> c.upstreamAddress != "" && c.bypassCidrs != []
    ensures r.Success? ==> r.value == Render(ConfigPieces(c))
    ensures r.Failure? ==> r.error.code == InvalidConfiguration
  {
    if c.upstreamAddress == "" {
      return Failure(Error(InvalidConfiguration, "resolved upstream address is empty"));
    }
    if c.bypassCidrs == [] {
      return Failure(Error(InvalidConfiguration, "bypass policy is empty"));
    }
    var json := WritePieces(ConfigPieces(c));
    r := Success(json);
  }

  /** The stream output of the document, piece by piece. */
  method WritePieces(pieces: seq<Piece>) returns (json: string)
    ensures json == Render(pieces)
  {
    json := "";
    for i := 0 to |pieces|
      invariant json + Render(pieces[i..]) == Render(pieces)
    {
      assert pieces[i..][0] == pieces[i] && pieces[i..][1..] == pieces[i + 1..];
      ConcatAssociates(json, PieceText(pieces[i]), Render(pieces[i + 1..]));
      var text := WritePiece(pieces[i]);
      json := json + text;
    }
  }

  method WritePiece(piece: Piece) returns (text: string)
    ensures text == PieceText(piece)
  {
    match piece {
      case Part(part) =>
        text := FixedText(part);
      case Flag(set_) =>
        text := if set_ then "true" else "false";
      case Number(n) =>
        text := Show(n);
      case Str(value) =>
        var escaped := JsonEscape(value);
        text := WriteElement("", false, escaped);
      case List(values) =>
        text := WriteStringArray(values);
    }
  }

  /** Reading starts where piece i was written: the value comes back and the rest is exactly what follows it. */
  ghost predicate ReadsBack(pieces: seq<Piece>, i: nat)
    requires i < |pieces|
  {
    match pieces[i]
    case Str(value) => ReadString(Render(pieces[i..])) == Good(value, Render(pieces[i + 1..]))
    case List(values) => ReadStringArray(Render(pieces[i..])) == Good(values, Render(pieces[i + 1..]))
    case _ => true
  }

  lemma {:induction false} RenderAppend(a: seq<Piece>, b: seq<Piece>)
    ensures Render(a + b) == Render(a) + Render(b)
  {
    if a == [] {
      assert a + b == b;
    } else {
      assert (a + b)[1..] == a[1..] + b;
      RenderAppend(a[1..], b);
      ConcatAssociates(PieceText(a[0]), Render(a[1..]), Render(b));
    }
  }

  /**
   In the generated document every string and every array from the runtime values reads back as it
   was given and ends where the fixed text goes on; so no value can end its string early.
   */
  lemma GeneratedConfigReadsBack(c: RuntimeConfig, i: nat)
    requires i < |ConfigPieces(c)|
    ensures var pieces := ConfigPieces(c);
      ReadsBack(pieces, i) && Render(pieces) == Render(pieces[..i]) + Render(pieces[i..])
  {
    var pieces := ConfigPieces(c);
    assert pieces[..i] + pieces[i..] == pieces;
    RenderAppend(pieces[..i], pieces[i..]);
    PieceReadsBack(ConfigPieces(c), i);
  }

  lemma PieceReadsBack(pieces: seq<Piece>, i: nat)
    requires i < |pieces|
    ensures ReadsBack(pieces, i)
  {
    assert pieces[i..][1..] == pieces[i + 1..];
    match pieces[i] {
      case Str(value) => ReadQuoted(value, Render(pieces[i + 1..]));
      case List(values) => ReadInvertsStringArray(values, Render(pieces[i + 1..]));
      case _ =>
    }
  }

  lemma ArrayReadsBack(pieces: seq<Piece>, i: nat, values: seq<string>)
    requires i < |pieces| && pieces[i] == List(values)
    ensures ReadStringArray(Render(pieces[i..])) == Good(values, Render(pieces[i + 1..]))
  {
    PieceReadsBack(pieces, i);
  }

  /** The tunnel's exclusions and the direct rule list the same blocks: those of the policy. */
  lemma BothArraysAreThePolicy(c: RuntimeConfig)
    ensures var pieces := ConfigPieces(c);
      && ReadStringArray(Render(pieces[7..])) == Good(c.bypassCidrs, Render(pieces[8..]))
      && ReadStringArray(Render(pieces[14..])) == Good(c.bypassCidrs, Render(pieces[15..]))
  {
    var pieces := ConfigPieces(c);
    assert pieces[7] == List(c.bypassCidrs) && pieces[14] == List(c.bypassCidrs);
    ArrayReadsBack(pieces, 7, c.bypassCidrs);
    ArrayReadsBack(pieces, 14, c.bypassCidrs);
  }
}
