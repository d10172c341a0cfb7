/**
 The route section of the generated document, read back as JSON objects (RFC 8259) and then as the
 first-match rules that sing-box follows.
 */
module RouteDocument {
  import opened Common
  import opened Text
  import opened SingBoxConfig
  import Cidrs
  import BypassPolicy
  import Routing

  datatype Field = StringField(value: string) | NumberField(n: nat) | ArrayField(values: seq<string>) | FlagField(flag: bool)

  datatype Member = Member(key: string, field: Field)

  /** The objects read and written here have members. */
  type Object = o: seq<Member> | o != [] witness [Member("", FlagField(true))]

  // ----- reading

  function DigitCount(t: string): (n: nat)
    ensures n <= |t|
  {
    if t != "" && IsDigit(t[0]) then 1 + DigitCount(t[1..]) else 0
  }

  function ReadField(t: string): (r: Read<Field>)
    ensures r.Good? ==> |r.rest| < |t|
  {
    if t == "" then Bad
    else if t[0] == '"' then
      match ReadString(t)
      case Bad => Bad
      case Good(s, rest) => Good(StringField(s), rest)
    else if t[0] == '[' then
      match ReadStringArray(t)
      case Bad => Bad
      case Good(values, rest) => Good(ArrayField(values), rest)
    else if "true" <= t then Good(FlagField(true), t[4..])
    else if "false" <= t then Good(FlagField(false), t[5..])
    else
      var n := DigitCount(t);
      match ReadNat(t[..n])
      case None => Bad
      case Some(v) => Good(NumberField(v), t[n..])
  }

  function ReadMember(t: string): (r: Read<Member>)
    ensures r.Good? ==> |r.rest| < |t|
  {
    match ReadString(t)
    case Bad => Bad
    case Good(key, rest) =>
      var colon := SkipSpace(rest);
      if colon == "" || colon[0] != ':' then Bad
      else
        match ReadField(SkipSpace(colon[1..]))
        case Bad => Bad
        case Good(field, after) => Good(Member(key, field), after)
  }

  /** The members of an object from the first one on, up to the closing brace. */
  function ReadMembers(t: string): (r: Read<Object>)
    ensures r.Good? ==> |r.rest| < |t|
    decreases |t|
  {
    match ReadMember(t)
    case Bad => Bad
    case Good(member, rest) =>
      var next := SkipSpace(rest);
      if next == "" then Bad
      else if next[0] == '}' then Good([member], next[1..])
      else if next[0] != ',' then Bad
      else
        match ReadMembers(SkipSpace(next[1..]))
        case Bad => Bad
        case Good(members, after) => Good([member] + members, after)
  }

  function ReadObject(t: string): (r: Read<Object>)
    ensures r.Good? ==> |r.rest| < |t|
  {
    if t == "" || t[0] != '{' then Bad else ReadMembers(SkipSpace(t[1..]))
  }

  function ReadObjects(t: string): (r: Read<seq<Object>>)
    decreases |t|
  {
    match ReadObject(t)
    case Bad => Bad
    case Good(o, rest) =>
      var next := SkipSpace(rest);
      if next == "" then Bad
      else if next[0] == ']' then Good([o], next[1..])
      else if next[0] != ',' then Bad
      else
        match ReadObjects(SkipSpace(next[1..]))
        case Bad => Bad
        case Good(objects, after) => Good([o] + objects, after)
  }

  /** A non-empty array of non-empty objects. */
  function ReadObjectArray(t: string): Read<seq<Object>> {
    if t == "" || t[0] != '[' then Bad else ReadObjects(SkipSpace(t[1..]))
  }

  /** The members that follow a value inside an object. */
  function ReadFurtherMembers(t: string): Read<Object> {
    if t == "" || t[0] != ',' then Bad else ReadMembers(SkipSpace(t[1..]))
  }

  // ----- what is read, as text

  function FieldText(f: Field): string {
    match f
    case StringField(value) => Quoted(value)
    case NumberField(n) => Show(n)
    case ArrayField(values) => StringArray(values)
    case FlagField(flag) => if flag then "true" else "false"
  }

  function MemberText(m: Member): string { Quoted(m.key) + ([':', ' '] + FieldText(m.field)) }

  function MembersText(o: Object): string
  {
    if |o| == 1 then MemberText(o[0]) else MemberText(o[0]) + ([',', ' '] + MembersText(o[1..]))
  }

  function ObjectText(o: Object): string
  {
    ['{'] + (MembersText(o) + ['}'])
  }

  function ObjectsText(objects: seq<Object>): string
    requires objects != []
  {
    if |objects| == 1 then ObjectText(objects[0])
    else ObjectText(objects[0]) + ([',', ' '] + ObjectsText(objects[1..]))
  }

  lemma Regroup(a: string, b: string, c: string, d: string)
    ensures (a + (b + c)) + d == a + (b + (c + d))
  {
    ConcatAssociates(a, b + c, d);
    ConcatAssociates(b, c, d);
  }

  /** Nothing that could go on a number. */
  predicate Ends(rest: string) { rest != "" && !IsDigit(rest[0]) }

  lemma {:induction false} DigitsEnd(digits: string, rest: string)
    requires Ends(rest) && forall i | 0 <= i < |digits| :: IsDigit(digits[i])
    ensures DigitCount(digits + rest) == |digits|
  {
    if digits == "" {
      assert digits + rest == rest;
    } else {
      DigitsEnd(digits[1..], rest);
      assert (digits + rest)[1..] == digits[1..] + rest;
    }
  }

  lemma ReadNumberText(n: nat, rest: string)
    requires Ends(rest)
    ensures ReadField(Show(n) + rest) == Good(NumberField(n), rest)
  {
    var digits, t := Show(n), Show(n) + rest;
    assert forall i | 0 <= i < |digits| :: IsDigit(digits[i]);
    assert t[0] == digits[0] && IsDigit(t[0]);
    DigitsEnd(digits, rest);
    ReadShow(n);
    assert t[..|digits|] == digits && t[|digits|..] == rest;
  }

  lemma ReadFlagText(flag: bool, rest: string)
    ensures ReadField(FieldText(FlagField(flag)) + rest) == Good(FlagField(flag), rest)
  {
    var t := FieldText(FlagField(flag)) + rest;
    if flag {
      assert t[..4] == "true" && t[4..] == rest;
    } else {
      assert t[0] == 'f';
      assert t[..5] == "false" && t[5..] == rest;
    }
  }

  lemma ReadFieldText(f: Field, rest: string)
    requires Ends(rest)
    ensures ReadField(FieldText(f) + rest) == Good(f, rest)
  {
    match f {
      case StringField(value) => ReadQuoted(value, rest);
      case NumberField(n) => ReadNumberText(n, rest);
      case ArrayField(values) => ReadInvertsStringArray(values, rest);
      case FlagField(flag) => ReadFlagText(flag, rest);
    }
  }

  lemma FieldStarts(f: Field, rest: string)
    ensures var t := FieldText(f) + rest; t != "" && SkipSpace(t) == t
  {
    match f {
      case StringField(value) =>
      case NumberField(n) =>
        var digits := Show(n);
        assert forall i | 0 <= i < |digits| :: IsDigit(digits[i]);
      case ArrayField(values) =>
      case FlagField(flag) =>
    }
  }

  lemma ReadMemberText(m: Member, rest: string)
    requires Ends(rest)
    ensures ReadMember(MemberText(m) + rest) == Good(m, rest)
  {
    var value := FieldText(m.field) + rest;
    var tail := [':', ' '] + value;
    Regroup(Quoted(m.key), [':', ' '], FieldText(m.field), rest);
    ReadQuoted(m.key, tail);
    FieldStarts(m.field, rest);
    SkipColon(value);
    ReadFieldText(m.field, rest);
  }

  lemma SkipColon(value: string)
    requires SkipSpace(value) == value
    ensures var tail := [':', ' '] + value; SkipSpace(tail) == tail && SkipSpace(tail[1..]) == value
  {
    assert ([':', ' '] + value)[1..] == [' '] + value && ([' '] + value)[1..] == value;
  }

  /** What closes an object, after any space: a brace, and what follows it. */
  predicate Closes(close: string, after: string) {
    close != "" && !IsDigit(close[0]) && SkipSpace(close) == ['}'] + after
  }

  lemma MembersStart(o: Object, rest: string)
    ensures var t := MembersText(o) + rest; t != "" && t[0] == '"' && SkipSpace(t) == t
  {
  }

  lemma ReadMembersNext(text: string, m: Member, more: string, o: Object, after: string)
    requires ReadMember(text) == Good(m, [',', ' '] + more) && SkipSpace(more) == more
    requires ReadMembers(more) == Good(o, after)
    ensures ReadMembers(text) == Good([m] + o, after)
  {
    SkipComma(more);
  }

  lemma ReadMembersLast(text: string, m: Member, close: string, after: string)
    requires ReadMember(text) == Good(m, close) && Closes(close, after)
    ensures ReadMembers(text) == Good([m], after)
  {
    assert (['}'] + after)[1..] == after;
  }

  lemma {:induction false} ReadMembersText(o: Object, close: string, after: string)
    requires Closes(close, after)
    ensures ReadMembers(MembersText(o) + close) == Good(o, after)
    decreases |o|
  {
    if |o| == 1 {
      ReadMemberText(o[0], close);
      ReadMembersLast(MembersText(o) + close, o[0], close, after);
      assert o == [o[0]];
    } else {
      var more := MembersText(o[1..]) + close;
      ReadMembersText(o[1..], close, after);
      Regroup(MemberText(o[0]), [',', ' '], MembersText(o[1..]), close);
      ReadMemberText(o[0], [',', ' '] + more);
      MembersStart(o[1..], close);
      ReadMembersNext(MembersText(o) + close, o[0], more, o[1..], after);
      assert o == [o[0]] + o[1..];
    }
  }

  lemma SkipComma(more: string)
    requires SkipSpace(more) == more
    ensures var rest := [',', ' '] + more; SkipSpace(rest) == rest && SkipSpace(rest[1..]) == more
  {
    var rest := [',', ' '] + more;
    assert rest[1..] == [' '] + more && ([' '] + more)[1..] == more;
  }

  lemma ReadObjectText(o: Object, rest: string)
    ensures ReadObject(ObjectText(o) + rest) == Good(o, rest)
  {
    var close := ['}'] + rest;
    Regroup(['{'], MembersText(o), ['}'], rest);
    assert (ObjectText(o) + rest)[1..] == MembersText(o) + close;
    MembersStart(o, close);
    ReadMembersText(o, close, rest);
  }

  lemma ObjectsStart(objects: seq<Object>, rest: string)
    requires objects != []
    ensures var t := ObjectsText(objects) + rest; t != "" && t[0] == '{' && SkipSpace(t) == t
  {
  }

  lemma ReadObjectsNext(text: string, o: Object, more: string, objects: seq<Object>, after: string)
    requires ReadObject(text) == Good(o, [',', ' '] + more) && SkipSpace(more) == more
    requires ReadObjects(more) == Good(objects, after)
    ensures ReadObjects(text) == Good([o] + objects, after)
  {
    SkipComma(more);
  }

  lemma ReadObjectsLast(text: string, o: Object, rest: string)
    requires ReadObject(text) == Good(o, [']'] + rest)
    ensures ReadObjects(text) == Good([o], rest)
  {
    assert ([']'] + rest)[1..] == rest;
  }

  lemma ReadFirstObject(objects: seq<Object>, close: string)
    requires |objects| > 1
    ensures ReadObject(ObjectsText(objects) + close) ==
      Good(objects[0], [',', ' '] + (ObjectsText(objects[1..]) + close))
  {
    Regroup(ObjectText(objects[0]), [',', ' '], ObjectsText(objects[1..]), close);
    ReadObjectText(objects[0], [',', ' '] + (ObjectsText(objects[1..]) + close));
  }

  /** The objects are read back before the end of the array. */
  ghost predicate ReadsBackAll(objects: seq<Object>, rest: string)
    requires objects != []
  {
    ReadObjects(ObjectsText(objects) + ([']'] + rest)) == Good(objects, rest)
  }

  lemma ReadOneObject(objects: seq<Object>, rest: string)
    requires |objects| == 1
    ensures ReadsBackAll(objects, rest)
  {
    ReadObjectText(objects[0], [']'] + rest);
    ReadObjectsLast(ObjectText(objects[0]) + ([']'] + rest), objects[0], rest);
    assert objects == [objects[0]];
  }

  lemma ReadObjectsStep(objects: seq<Object>, rest: string)
    requires |objects| > 1 && ReadsBackAll(objects[1..], rest)
    ensures ReadsBackAll(objects, rest)
  {
    var close := [']'] + rest;
    ReadFirstObject(objects, close);
    ObjectsStart(objects[1..], close);
    ReadObjectsNext(ObjectsText(objects) + close, objects[0], ObjectsText(objects[1..]) + close, objects[1..], rest);
    assert objects == [objects[0]] + objects[1..];
  }

  lemma {:induction false} ReadObjectsText(objects: seq<Object>, rest: string)
    requires objects != []
    ensures ReadsBackAll(objects, rest)
    decreases |objects|
  {
    if |objects| == 1 {
      ReadOneObject(objects, rest);
    } else {
      ReadObjectsText(objects[1..], rest);
      ReadObjectsStep(objects, rest);
    }
  }

  /** An array of objects, written as in the document, is read back before any following text. */
  lemma ReadInvertsObjectArray(objects: seq<Object>, rest: string)
    requires objects != []
    ensures ReadObjectArray(['['] + (ObjectsText(objects) + ([']'] + rest))) == Good(objects, rest)
  {
    var inner := ObjectsText(objects) + ([']'] + rest);
    assert (['['] + inner)[1..] == inner;
    ObjectsStart(objects, [']'] + rest);
    ReadObjectsText(objects, rest);
  }

  // ----- the route section of the generated document

  /** Words that JSON strings hold as they are. */
  predicate Plain(s: string) { forall i | 0 <= i < |s| :: 'a' <= s[i] <= 'z' || s[i] == '-' || s[i] == '_' }

  lemma {:induction false} PlainIsItself(s: string)
    requires Plain(s)
    ensures Escape(s) == s
  {
    if s != "" {
      PlainIsItself(s[1..]);
      assert s == [s[0]] + s[1..];
    }
  }

  lemma PlainMember(key: string, value: string, text: string)
    requires Plain(key) && Plain(value) && text == ['"'] + key + ['"', ':', ' ', '"'] + value + ['"']
    ensures MemberText(Member(key, StringField(value))) == text
  {
    PlainIsItself(key);
    PlainIsItself(value);
  }

  lemma PlainTexts()
    ensures ACTION_ROUTE == ['"'] + "action" + ['"', ':', ' ', '"'] + "route" + ['"']
    ensures OUTBOUND_DIRECT == ['"'] + "outbound" + ['"', ':', ' ', '"'] + "direct" + ['"']
    ensures ACTION_HIJACK == ['"'] + "action" + ['"', ':', ' ', '"'] + "hijack-dns" + ['"']
    ensures NETWORK_UDP == ['"'] + "network" + ['"', ':', ' ', '"'] + "udp" + ['"']
    ensures ACTION_REJECT == ['"'] + "action" + ['"', ':', ' ', '"'] + "reject" + ['"']
    ensures FINAL_PROXY == ['"'] + "final" + ['"', ':', ' ', '"'] + "proxy" + ['"']
  {
  }

  lemma PlainWords()
    ensures Plain("action")
    ensures Plain("route")
    ensures Plain("outbound")
    ensures Plain("direct")
    ensures Plain("hijack-dns")
    ensures Plain("network")
    ensures Plain("udp")
    ensures Plain("reject")
    ensures Plain("final")
    ensures Plain("proxy")
    ensures Plain("port")
    ensures Plain("ip_cidr")
    ensures Plain("auto_detect_interface")
  {
  }

  lemma ActionRoute()
    ensures MemberText(Member("action", StringField("route"))) == ACTION_ROUTE
  {
    PlainTexts();
    PlainWords();
    PlainMember("action", "route", ACTION_ROUTE);
  }

  lemma OutboundDirect()
    ensures MemberText(Member("outbound", StringField("direct"))) == OUTBOUND_DIRECT
  {
    PlainTexts();
    PlainWords();
    PlainMember("outbound", "direct", OUTBOUND_DIRECT);
  }

  lemma ActionHijack()
    ensures MemberText(Member("action", StringField("hijack-dns"))) == ACTION_HIJACK
  {
    PlainTexts();
    PlainWords();
    PlainMember("action", "hijack-dns", ACTION_HIJACK);
  }

  lemma NetworkUdp()
    ensures MemberText(Member("network", StringField("udp"))) == NETWORK_UDP
  {
    PlainTexts();
    PlainWords();
    PlainMember("network", "udp", NETWORK_UDP);
  }

  lemma ActionReject()
    ensures MemberText(Member("action", StringField("reject"))) == ACTION_REJECT
  {
    PlainTexts();
    PlainWords();
    PlainMember("action", "reject", ACTION_REJECT);
  }

  lemma FinalProxy()
    ensures MemberText(Member("final", StringField("proxy"))) == FINAL_PROXY
  {
    PlainTexts();
    PlainWords();
    PlainMember("final", "proxy", FINAL_PROXY);
  }

  lemma Show53()
    ensures Show(53) == ['5', '3']
  {
    assert Show(5) == ['5'];
  }

  lemma Port53()
    ensures MemberText(Member("port", NumberField(53))) == PORT_53
  {
    Show53();
    PlainWords();
    PlainIsItself("port");
  }

  lemma AutoDetect()
    ensures MemberText(Member("auto_detect_interface", FlagField(true))) == AUTO_DETECT
  {
    PlainWords();
    PlainIsItself("auto_detect_interface");
    AutoDetectText();
  }

  lemma AutoDetectText()
    ensures AUTO_DETECT == (['"'] + "auto_detect_interface" + ['"']) + ([':', ' '] + "true")
  {
  }

  lemma IpCidr()
    ensures Quoted("ip_cidr") == IP_CIDR
  {
    PlainWords();
    PlainIsItself("ip_cidr");
  }

  lemma TwoMembers(a: Member, b: Member, textA: string, textB: string)
    requires MemberText(a) == textA && MemberText(b) == textB
    ensures MembersText([a, b]) == textA + ([',', ' '] + textB)
    ensures ObjectText([a, b]) == TwoInBraces(textA, textB)
  {
    assert [a, b][1..] == [b];
  }

  const DNS_OBJECT: Object := [Member("port", NumberField(53)), Member("action", StringField("hijack-dns"))]
  const UDP_OBJECT: Object := [Member("network", StringField("udp")), Member("action", StringField("reject"))]
  const ACTION_MEMBERS: Object := [Member("action", StringField("route")), Member("outbound", StringField("direct"))]

  lemma RouteActionText()
    ensures ROUTE_ACTION == [',', ' '] + (MembersText(ACTION_MEMBERS) + ['}'])
  {
    ActionRoute();
    OutboundDirect();
    TwoMembers(ACTION_MEMBERS[0], ACTION_MEMBERS[1], ACTION_ROUTE, OUTBOUND_DIRECT);
  }

  lemma DnsRuleText()
    ensures DNS_RULE == [',', ' '] + ObjectText(DNS_OBJECT)
  {
    Port53();
    ActionHijack();
    TwoMembers(DNS_OBJECT[0], DNS_OBJECT[1], PORT_53, ACTION_HIJACK);
  }

  lemma UdpRuleText()
    ensures UDP_RULE == [',', ' '] + ObjectText(UDP_OBJECT)
  {
    NetworkUdp();
    ActionReject();
    TwoMembers(UDP_OBJECT[0], UDP_OBJECT[1], NETWORK_UDP, ACTION_REJECT);
  }

  lemma FirstOf(m: Member, o: Object)
    ensures MembersText([m] + o) == MemberText(m) + ([',', ' '] + MembersText(o))
  {
    assert ([m] + o)[1..] == o;
  }

  function FirstObject(cidrs: seq<string>): Object { [Member("ip_cidr", ArrayField(cidrs))] + ACTION_MEMBERS }

  lemma FirstRuleText(cidrs: seq<string>)
    ensures FIRST_RULE + (StringArray(cidrs) + ROUTE_ACTION) == ['['] + ObjectText(FirstObject(cidrs))
  {
    var block := Member("ip_cidr", ArrayField(cidrs));
    IpCidr();
    RouteActionText();
    FirstOf(block, ACTION_MEMBERS);
    SixParts(IP_CIDR, [':', ' '], StringArray(cidrs), [',', ' '], MembersText(ACTION_MEMBERS));
  }

  lemma SixParts(a: string, b: string, c: string, d: string, e: string)
    ensures ['[', '{'] + (a + b) + (c + (d + (e + ['}']))) == ['['] + (['{'] + ((a + (b + c)) + (d + e) + ['}']))
  {
  }

  /** The rules, as the objects they are in the document. */
  function RuleObjects(cidrs: seq<string>): seq<Object> { [FirstObject(cidrs), DNS_OBJECT, UDP_OBJECT] }

  lemma ThreeObjects(a: Object, b: Object, c: Object)
    ensures ObjectsText([a, b, c]) ==
      ObjectText(a) + ([',', ' '] + (ObjectText(b) + ([',', ' '] + ObjectText(c))))
  {
    var bc: seq<Object> := [b, c];
    assert [a, b, c][1..] == bc && bc[1..] == [c];
    assert ObjectsText(bc) == ObjectText(b) + ([',', ' '] + ObjectText(c));
  }

  lemma Join(a: string, b: string, c: string, first: string, second: string, third: string, end: string)
    requires a + (b + c) == ['['] + first
    ensures a + (b + (c + (([',', ' '] + second) + (([',', ' '] + third) + end)))) ==
      ['['] + ((first + ([',', ' '] + (second + ([',', ' '] + third)))) + end)
  {
    assert a + (b + (c + (([',', ' '] + second) + (([',', ' '] + third) + end)))) ==
      (a + (b + c)) + (([',', ' '] + second) + (([',', ' '] + third) + end));
  }

  lemma RulesText(cidrs: seq<string>)
    ensures FIRST_RULE + (StringArray(cidrs) + (ROUTE_ACTION + (DNS_RULE + (UDP_RULE + FINAL)))) ==
      ['['] + (ObjectsText(RuleObjects(cidrs)) + ([']'] + AFTER_RULES))
  {
    FirstRuleText(cidrs);
    DnsRuleText();
    UdpRuleText();
    ThreeObjects(FirstObject(cidrs), DNS_OBJECT, UDP_OBJECT);
    Join(FIRST_RULE, StringArray(cidrs), ROUTE_ACTION, ObjectText(FirstObject(cidrs)), ObjectText(DNS_OBJECT),
         ObjectText(UDP_OBJECT), FINAL);
  }

  lemma RenderNext(pieces: seq<Piece>, i: nat)
    requires i < |pieces|
    ensures Render(pieces[i..]) == PieceText(pieces[i]) + Render(pieces[i + 1..])
  {
    assert pieces[i..][1..] == pieces[i + 1..];
  }

  lemma RenderRules(c: RuntimeConfig)
    ensures Render(ConfigPieces(c)[13..]) ==
      FIRST_RULE + (StringArray(c.bypassCidrs) + (ROUTE_ACTION + (DNS_RULE + (UDP_RULE + FINAL))))
  {
    var pieces := ConfigPieces(c);
    assert pieces[13] == Part(FirstRule) && pieces[14] == List(c.bypassCidrs) && pieces[15] == Part(RouteAction);
    assert pieces[16] == Part(DnsRule) && pieces[17] == Part(UdpRule) && pieces[18] == Part(Final) && |pieces| == 19;
    RenderRulesOf(pieces, c.bypassCidrs);
  }

  lemma RenderRulesOf(pieces: seq<Piece>, cidrs: seq<string>)
    requires |pieces| == 19 && pieces[13] == Part(FirstRule) && pieces[14] == List(cidrs) && pieces[15] == Part(RouteAction)
    requires pieces[16] == Part(DnsRule) && pieces[17] == Part(UdpRule) && pieces[18] == Part(Final)
    ensures Render(pieces[13..]) ==
      FIRST_RULE + (StringArray(cidrs) + (ROUTE_ACTION + (DNS_RULE + (UDP_RULE + FINAL))))
  {
    RenderNext(pieces, 13);
    RenderNext(pieces, 14);
    RenderNext(pieces, 15);
    RenderNext(pieces, 16);
    RenderNext(pieces, 17);
    RenderNext(pieces, 18);
    assert FINAL + "" == FINAL;
  }

  /** The rules of the generated document are read back as the objects above. */
  lemma DocumentHasRules(c: RuntimeConfig)
    ensures ReadObjectArray(Render(ConfigPieces(c)[13..])) == Good(RuleObjects(c.bypassCidrs), AFTER_RULES)
  {
    RenderRules(c);
    RulesText(c.bypassCidrs);
    ReadInvertsObjectArray(RuleObjects(c.bypassCidrs), AFTER_RULES);
  }

  const FINAL_MEMBERS: Object := [Member("final", StringField("proxy")), Member("auto_detect_interface", FlagField(true))]

  lemma FinalMembersText()
    ensures MembersText(FINAL_MEMBERS) == FINAL_PROXY + ([',', ' '] + AUTO_DETECT)
  {
    FinalProxy();
    AutoDetect();
    TwoMembers(FINAL_MEMBERS[0], FINAL_MEMBERS[1], FINAL_PROXY, AUTO_DETECT);
  }

  lemma ClosesRoute()
    ensures Closes(CLOSE_ROUTE, "\n}\n")
  {
    assert CLOSE_ROUTE[1..][1..][1..] == ['}'] + "\n}\n";
    assert SkipSpace(CLOSE_ROUTE[1..][1..]) == CLOSE_ROUTE[1..][1..][1..];
  }

  lemma SkipOne(c: char, t: string)
    requires c == ' ' || c == '\n'
    ensures SkipSpace([c] + t) == SkipSpace(t)
  {
    assert ([c] + t)[1..] == t;
  }

  lemma SkipIndent(t: string)
    ensures SkipSpace(Indented(t)) == SkipSpace(t)
  {
    SkipOne(' ', t);
    SkipOne(' ', [' '] + t);
    SkipOne(' ', [' '] + ([' '] + t));
    SkipOne(' ', [' '] + ([' '] + ([' '] + t)));
    SkipOne('\n', [' '] + ([' '] + ([' '] + ([' '] + t))));
  }

  lemma ReadIndented(o: Object, close: string, after: string)
    requires Closes(close, after)
    ensures ReadFurtherMembers([','] + Indented(MembersText(o) + close)) == Good(o, after)
  {
    var t := Indented(MembersText(o) + close);
    assert ([','] + t)[1..] == t;
    SkipIndent(MembersText(o) + close);
    MembersStart(o, close);
    ReadMembersText(o, close, after);
  }

  /** And what follows them in the route section is the outbound for everything else. */
  lemma DocumentHasFinal()
    ensures ReadFurtherMembers(AFTER_RULES) == Good(FINAL_MEMBERS, "\n}\n")
  {
    FinalMembersText();
    ClosesRoute();
    ReadIndented(FINAL_MEMBERS, CLOSE_ROUTE, "\n}\n");
  }

  // ----- what the objects mean to sing-box

  function Lookup(o: seq<Member>, key: string): Option<Field> {
    if o == [] then None else if o[0].key == key then Some(o[0].field) else Lookup(o[1..], key)
  }

  function ActionOf(o: Object): Option<Routing.Action> {
    var action := Lookup(o, "action");
    if action == Some(StringField("route")) && Lookup(o, "outbound") == Some(StringField("direct")) then Some(Routing.Direct)
    else if action == Some(StringField("hijack-dns")) then Some(Routing.HijackDns)
    else if action == Some(StringField("reject")) then Some(Routing.RejectPacket)
    else None
  }

  /** The blocks of some texts, if all of them are blocks. */
  function BlocksOf(codec: BypassPolicy.Codec, texts: seq<string>): Option<seq<BypassPolicy.Block>> {
    if texts == [] then Some([])
    else
      var first, others := BypassPolicy.ParseCidr(codec, texts[0]), BlocksOf(codec, texts[1..]);
      if first.None? || others.None? then None else Some([first.value] + others.value)
  }

  function RuleOf(codec: BypassPolicy.Codec, o: Object): Option<Routing.Rule> {
    var action := ActionOf(o);
    if action.None? then None
    else
      match Lookup(o, "ip_cidr")
      case Some(ArrayField(texts)) =>
        var blocks := BlocksOf(codec, texts);
        if blocks.None? then None else Some(Routing.IpCidr(blocks.value, action.value))
      case _ =>
        match Lookup(o, "port")
        case Some(NumberField(n)) => Some(Routing.Port(n, action.value))
        case _ => if Lookup(o, "network") == Some(StringField("udp")) then Some(Routing.Udp(action.value)) else None
  }

  function RulesOf(codec: BypassPolicy.Codec, objects: seq<Object>): Option<seq<Routing.Rule>> {
    if objects == [] then Some([])
    else
      var first, others := RuleOf(codec, objects[0]), RulesOf(codec, objects[1..]);
      if first.None? || others.None? then None else Some([first.value] + others.value)
  }

  lemma {:induction false} EntriesParse(codec: BypassPolicy.Codec, entries: seq<BypassPolicy.Entry>)
    requires BypassPolicy.Minimal(codec, entries)
    ensures BlocksOf(codec, BypassPolicy.EntryTexts(entries)) == Some(Routing.BlocksOf(entries))
  {
    var texts := BypassPolicy.EntryTexts(entries);
    if entries == [] {
      assert texts == [] && Routing.BlocksOf(entries) == [];
    } else {
      EntriesParse(codec, entries[1..]);
      assert texts[0] == entries[0].text && texts[1..] == BypassPolicy.EntryTexts(entries[1..]);
      FirstParses(codec, texts, entries[0].block, Routing.BlocksOf(entries[1..]));
      assert Routing.BlocksOf(entries) == [entries[0].block] + Routing.BlocksOf(entries[1..]);
    }
  }

  lemma FirstParses(
    codec: BypassPolicy.Codec, texts: seq<string>, block: BypassPolicy.Block, blocks: seq<BypassPolicy.Block>)
    requires texts != [] && BypassPolicy.ParseCidr(codec, texts[0]) == Some(block)
    requires BlocksOf(codec, texts[1..]) == Some(blocks)
    ensures BlocksOf(codec, texts) == Some([block] + blocks)
  {
  }

  lemma FirstRuleMeans(codec: BypassPolicy.Codec, texts: seq<string>, blocks: seq<BypassPolicy.Block>)
    requires BlocksOf(codec, texts) == Some(blocks)
    ensures RuleOf(codec, FirstObject(texts)) == Some(Routing.IpCidr(blocks, Routing.Direct))
  {
    var block := Member("ip_cidr", ArrayField(texts));
    LookupFirst(block, ACTION_MEMBERS, "action");
    LookupFirst(block, ACTION_MEMBERS, "outbound");
    LookupFirst(block, ACTION_MEMBERS, "ip_cidr");
    ActionMeans();
  }

  lemma LookupFirst(m: Member, o: seq<Member>, key: string)
    ensures Lookup([m] + o, key) == if m.key == key then Some(m.field) else Lookup(o, key)
  {
    assert ([m] + o)[1..] == o;
  }

  lemma ActionMeans()
    ensures Lookup(ACTION_MEMBERS, "action") == Some(StringField("route"))
    ensures Lookup(ACTION_MEMBERS, "outbound") == Some(StringField("direct"))
  {
  }

  lemma OtherRulesMean(codec: BypassPolicy.Codec)
    ensures RuleOf(codec, DNS_OBJECT) == Some(Routing.Port(53, Routing.HijackDns))
    ensures RuleOf(codec, UDP_OBJECT) == Some(Routing.Udp(Routing.RejectPacket))
  {
  }

  lemma RulesFirst(
    codec: BypassPolicy.Codec, o: Object, rule: Routing.Rule, others: seq<Object>, rules: seq<Routing.Rule>,
    all: seq<Object>)
    requires RuleOf(codec, o) == Some(rule) && RulesOf(codec, others) == Some(rules) && all == [o] + others
    ensures RulesOf(codec, all) == Some([rule] + rules)
  {
    assert all[1..] == others;
  }

  lemma ThreeRules(
    codec: BypassPolicy.Codec, a: Object, b: Object, c: Object, r: Routing.Rule, s: Routing.Rule, t: Routing.Rule)
    requires RuleOf(codec, a) == Some(r) && RuleOf(codec, b) == Some(s) && RuleOf(codec, c) == Some(t)
    ensures RulesOf(codec, [a, b, c]) == Some([r, s, t])
  {
    RulesFirst(codec, c, t, [], [], [c]);
    RulesFirst(codec, b, s, [c], [t] + [], [b, c]);
    RulesFirst(codec, a, r, [b, c], [s] + ([t] + []), [a, b, c]);
    assert [r] + ([s] + ([t] + [])) == [r, s, t];
  }

  /** The document's rules are those by which packets of this policy are decided, and the rest goes to the proxy. */
  lemma DocumentRoutesAsDecided(codec: BypassPolicy.Codec, policy: BypassPolicy.Policy, c: RuntimeConfig)
    requires c.bypassCidrs == BypassPolicy.EntryTexts(BypassPolicy.AllEntries(codec, policy))
    ensures var rules := ReadObjectArray(Render(ConfigPieces(c)[13..]));
      && rules.Good?
      && RulesOf(codec, rules.value) == Some(Routing.RouteRules(BypassPolicy.AllEntries(codec, policy)))
      && var others := ReadFurtherMembers(rules.rest);
         others.Good? && Lookup(others.value, "final") == Some(StringField("proxy"))
  {
    var entries := BypassPolicy.AllEntries(codec, policy);
    DocumentHasRules(c);
    DocumentHasFinal();
    BypassPolicy.AllCidrsKeeps(codec, policy, Cidrs.Address(Cidrs.Inet4, 0));
    EntriesParse(codec, entries);
    FirstRuleMeans(codec, c.bypassCidrs, Routing.BlocksOf(entries));
    OtherRulesMean(codec);
    ThreeRules(codec, FirstObject(c.bypassCidrs), DNS_OBJECT, UDP_OBJECT,
      Routing.IpCidr(Routing.BlocksOf(entries), Routing.Direct), Routing.Port(53, Routing.HijackDns),
      Routing.Udp(Routing.RejectPacket));
  }
}
