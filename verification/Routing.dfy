/** What the generated first-match rules do to a packet, and what that says about the bypass policy. */
module Routing {
  import opened Common
  import opened Cidrs
  import opened BypassPolicy

  datatype Packet = Packet(destination: Address, port: nat, udp: bool)

  datatype Action = Direct | HijackDns | RejectPacket | Proxy

  datatype Rule =
    | IpCidr(blocks: seq<Block>, action: Action)
    | Port(port: nat, action: Action)
    | Udp(action: Action)

  ghost predicate Matches(rule: Rule, p: Packet) {
    match rule
    case IpCidr(blocks, _) => exists i | 0 <= i < |blocks| :: Covers(blocks[i], p.destination)
    case Port(port, _) => p.port == port
    case Udp(_) => p.udp
  }

  /** The first matching rule decides; `final` decides the rest. */
  ghost function FirstMatch(rules: seq<Rule>, final: Action, p: Packet): Action {
    if rules == [] then final
    else if Matches(rules[0], p) then rules[0].action
    else FirstMatch(rules[1..], final, p)
  }

  function BlocksOf(entries: seq<Entry>): seq<Block> {
    seq(|entries|, i requires 0 <= i < |entries| => entries[i].block)
  }

  /** The route rules of the generated configuration. */
  function RouteRules(entries: seq<Entry>): seq<Rule> {
    [IpCidr(BlocksOf(entries), Direct), Port(53, HijackDns), Udp(RejectPacket)]
  }

  ghost function Decide(codec: Codec, policy: Policy, p: Packet): Action {
    FirstMatch(RouteRules(AllEntries(codec, policy)), Proxy, p)
  }

  ghost predicate Bypassed(codec: Codec, policy: Policy, a: Address) {
    || TextCovers(codec, policy.upstream, a)
    || SomeTextCovers(codec, policy.fixed, a) || SomeTextCovers(codec, policy.interfaces, a)
  }

  lemma RulesInOrder(entries: seq<Entry>, p: Packet)
    ensures FirstMatch(RouteRules(entries), Proxy, p) ==
      if EntriesCover(entries, p.destination) then Direct
      else if p.port == 53 then HijackDns
      else if p.udp then RejectPacket
      else Proxy
  {
    var rules := RouteRules(entries);
    var blocks := BlocksOf(entries);
    assert Matches(rules[0], p) <==> EntriesCover(entries, p.destination) by {
      assert forall i | 0 <= i < |entries| :: blocks[i] == entries[i].block;
    }
    assert rules[1..][1..] == rules[2..] && rules[2..][1..] == [];
    assert FirstMatch(rules[2..], Proxy, p) == if p.udp then RejectPacket else Proxy;
    assert FirstMatch(rules[1..], Proxy, p) == if p.port == 53 then HijackDns else FirstMatch(rules[2..], Proxy, p);
  }

  /** The rules decide by the policy as it was before minimisation. */
  lemma PolicyDecides(codec: Codec, policy: Policy, p: Packet)
    ensures Decide(codec, policy, p) ==
      if Bypassed(codec, policy, p.destination) then Direct
      else if p.port == 53 then HijackDns
      else if p.udp then RejectPacket
      else Proxy
  {
    AllCidrsKeeps(codec, policy, p.destination);
    RulesInOrder(AllEntries(codec, policy), p);
  }

  // ----- no loop through the tunnel

  lemma DifferentBit(c: BinaryCidr, d: BinaryCidr, i: nat)
    requires WellFormed(c) && WellFormed(d) && c.family == d.family
    requires i < c.prefix && i < d.prefix && AddressBit(c.address, i) != AddressBit(d.address, i)
    ensures !Meet(c, d)
  {
    NestedOrDisjoint(c, d);
    assert Bits(c)[i] != Bits(d)[i];
  }

  lemma FixedBlocksAvoidTunSpace(i: nat)
    requires i < 12
    ensures WellFormed(FIXED_BLOCKS[i]) && !Meet(FIXED_BLOCKS[i], TUN_SPACE)
  {
    var c := FIXED_BLOCKS[i];
    if c.family.Inet4? {
      var bit := FixedDiffersAt(i);
      DifferentBit(c, TUN_SPACE, bit);
    }
  }

  lemma FixedDiffersAt(i: nat) returns (bit: nat)
    requires i < 12 && FIXED_BLOCKS[i].family.Inet4?
    ensures WellFormed(FIXED_BLOCKS[i]) && bit < FIXED_BLOCKS[i].prefix && bit < 15
    ensures AddressBit(FIXED_BLOCKS[i].address, bit) != AddressBit(TUN_SPACE.address, bit)
  {
    bit := if i == 4 then 5 else if i == 3 || i == 6 then 1 else if i == 9 || i == 11 then 2 else 0;
  }

  /** No parsable text of the list covers an address of 198.18.0.0/15. */
  ghost predicate AvoidsTunSpace(codec: Codec, texts: seq<string>) {
    forall a | Covers(TUN_SPACE, a) :: !SomeTextCovers(codec, texts, a)
  }

  lemma FixedTextsAvoidTunSpace(codec: Codec)
    requires ReadsFixed(codec)
    ensures AvoidsTunSpace(codec, FIXED_CIDRS)
  {
    forall i, a | 0 <= i < 12 && Covers(TUN_SPACE, a)
      ensures !TextCovers(codec, FIXED_CIDRS[i], a)
    {
      FixedBlocksAvoidTunSpace(i);
      assert ParseCidr(codec, FIXED_CIDRS[i]) == Some(FIXED_BLOCKS[i]);
      assert !Covers(FIXED_BLOCKS[i], a);
    }
  }

  lemma HostTextAvoidsTunSpace(codec: Codec, h: BinaryCidr, a: Address)
    requires CodecLaws(codec) && IsHost(h) && !Meet(h, TUN_SPACE) && Covers(TUN_SPACE, a)
    ensures !TextCovers(codec, FormatCidr(codec, h), a)
  {
    HostContainsOnlyItself(h, h);
    ParseInvertsFormat(codec, h);
  }

  /** The interface addresses that were collected avoid it. */
  lemma CollectedTextsAvoidTunSpace(
    codec: Codec, fixed: seq<string>, interfaces: seq<Interface>, excluded: string, texts: seq<string>)
    requires CodecLaws(codec)
    requires Elements(texts) == TextsOf(codec, HostsOf(codec, fixed, interfaces, excluded))
    ensures AvoidsTunSpace(codec, texts)
  {
    var hosts := HostsOf(codec, fixed, interfaces, excluded);
    forall i, a | 0 <= i < |texts| && Covers(TUN_SPACE, a)
      ensures !TextCovers(codec, texts[i], a)
    {
      assert texts[i] in Elements(texts);
      var h :| h in hosts && WellFormed(h) && texts[i] == FormatCidr(codec, h);
      HostTextAvoidsTunSpace(codec, h, a);
    }
  }

  /** The address that the resolved upstream text stands for. */
  function ResolvedAddress(codec: Codec, address: string): Option<Address> {
    var bytes4, bytes6 := codec.pton4(address), codec.pton6(address);
    if bytes4.Some? && |bytes4.value| == 4 then Some(HostAddress(BinaryCidr(Inet4, Padded(bytes4.value), 32)))
    else if bytes6.Some? && |bytes6.value| == 16 then Some(HostAddress(BinaryCidr(Inet6, Padded(bytes6.value), 128)))
    else None
  }

  lemma HostTextCovers(codec: Codec, c: BinaryCidr, a: Address)
    requires CodecLaws(codec) && IsHost(c)
    ensures TextCovers(codec, FormatCidr(codec, c), a) <==> a == HostAddress(c)
  {
    HostContainsOnlyItself(c, c);
    ParseInvertsFormat(codec, c);
    HostCoversItsAddress(c, a);
  }

  /** The upstream's block covers exactly the resolved address. */
  lemma UpstreamCoversItsAddress(codec: Codec, address: string, a: Address)
    requires CodecLaws(codec) && AddressHostCidr(codec, address).Some?
    ensures ResolvedAddress(codec, address).Some?
    ensures TextCovers(codec, AddressHostCidr(codec, address).value, a) <==> Some(a) == ResolvedAddress(codec, address)
  {
    var bytes4, bytes6 := codec.pton4(address), codec.pton6(address);
    if bytes4.Some? && |bytes4.value| == 4 {
      HostTextCovers(codec, BinaryCidr(Inet4, Padded(bytes4.value), 32), a);
    } else {
      HostTextCovers(codec, BinaryCidr(Inet6, Padded(bytes6.value), 128), a);
    }
  }

  lemma AvoidedUnlessUpstream(codec: Codec, policy: Policy, p: Packet)
    requires AvoidsTunSpace(codec, policy.fixed) && AvoidsTunSpace(codec, policy.interfaces)
    ensures TextCovers(codec, policy.upstream, p.destination) ==> Decide(codec, policy, p) == Direct
    ensures Covers(TUN_SPACE, p.destination) && Decide(codec, policy, p) == Direct ==>
      TextCovers(codec, policy.upstream, p.destination)
  {
    PolicyDecides(codec, policy, p);
  }

  /** The upstream is what was resolved, or there is none. */
  ghost predicate Pinned(codec: Codec, policy: Policy, resolved: Option<Address>) {
    if policy.upstream == "" then resolved == None
    else exists address | AddressHostCidr(codec, address) == Some(policy.upstream) ::
      ResolvedAddress(codec, address) == resolved
  }

  /** The resolved address goes direct, and of 198.18.0.0/15 no other one does. */
  ghost predicate OnlyUpstreamLeaves(codec: Codec, policy: Policy, resolved: Option<Address>, p: Packet) {
    && (Some(p.destination) == resolved ==> Decide(codec, policy, p) == Direct)
    && (Covers(TUN_SPACE, p.destination) && Decide(codec, policy, p) == Direct ==> Some(p.destination) == resolved)
  }

  /**
   With a collected policy the one resolved upstream address always goes direct, and no other address of
   198.18.0.0/15 does: nothing passes the tunnel's own addresses around the tunnel.
   */
  lemma OnlyTheUpstreamLeavesTunSpace(
    codec: Codec, policy: Policy, interfaces: seq<Interface>, excluded: string, resolved: Option<Address>, p: Packet)
    requires CodecLaws(codec) && ReadsFixed(codec) && Collected(codec, policy, interfaces, excluded)
    requires Pinned(codec, policy, resolved)
    ensures OnlyUpstreamLeaves(codec, policy, resolved, p)
  {
    FixedTextsAvoidTunSpace(codec);
    CollectedTextsAvoidTunSpace(codec, policy.fixed, interfaces, excluded, policy.interfaces);
    AvoidedUnlessUpstream(codec, policy, p);
    if policy.upstream != "" {
      var address :| AddressHostCidr(codec, address) == Some(policy.upstream) && ResolvedAddress(codec, address) == resolved;
      UpstreamCoversItsAddress(codec, address, p.destination);
    }
  }
}
