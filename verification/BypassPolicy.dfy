/**
 The bypass policy: CIDR text, the scan of the interface addresses, and the list of all bypassed
 blocks with the redundant ones left out. inet_pton and inet_ntop come in as a codec.
 */
module BypassPolicy {
  import opened Common
  import opened Text
  import opened Cidrs

  datatype Codec = Codec(
    pton4: string -> Option<seq<bv8>>,
    pton6: string -> Option<seq<bv8>>,
    ntop: (Family, seq<bv8>) -> string)

  const FIXED_CIDRS: seq<string> := [
    "127.0.0.0/8", "::1/128", "10.0.0.0/8", "172.16.0.0/12", "192.168.0.0/16", "100.64.0.0/10",
    "169.254.0.0/16", "fe80::/10", "fc00::/7", "224.0.0.0/4", "ff00::/8", "255.255.255.255/32"]

  const ZEROS: seq<bv8> := [0, 0, 0, 0, 0, 0, 0, 0, 0, 0, 0, 0]

  function Block4(a: bv8, b: bv8, c: bv8, d: bv8, prefix: nat): BinaryCidr {
    BinaryCidr(Inet4, [a, b, c, d] + ZEROS, prefix)
  }

  function Block6(a: bv8, b: bv8, last: bv8, prefix: nat): BinaryCidr {
    BinaryCidr(Inet6, [a, b] + ZEROS + [0, last], prefix)
  }

  /** What the fixed texts stand for. */
  const FIXED_BLOCKS: seq<BinaryCidr> := [
    Block4(127, 0, 0, 0, 8), Block6(0, 0, 1, 128), Block4(10, 0, 0, 0, 8), Block4(172, 16, 0, 0, 12),
    Block4(192, 168, 0, 0, 16), Block4(100, 64, 0, 0, 10), Block4(169, 254, 0, 0, 16), Block6(0xfe, 0x80, 0, 10),
    Block6(0xfc, 0, 0, 7), Block4(224, 0, 0, 0, 4), Block6(0xff, 0, 0, 8), Block4(255, 255, 255, 255, 32)]

  function Padded(bytes: seq<bv8>): (address: seq<bv8>)
    requires |bytes| <= 16
    ensures |address| == 16 && address[..|bytes|] == bytes
    ensures forall i | |bytes| <= i < 16 :: address[i] == 0
  {
    bytes + seq(16 - |bytes|, _ => 0 as bv8)
  }

  function BlockOf(family: Family, bytes: Option<seq<bv8>>, prefix: nat): (block: Option<BinaryCidr>)
    ensures block.Some? ==> WellFormed(block.value) && Masked(block.value) == block.value
  {
    if bytes.None? || |bytes.value| != ByteCount(family) || prefix > Width(family) then None
    else
      var c := BinaryCidr(family, Padded(bytes.value), prefix);
      MaskingIsIdempotent(c);
      Some(Masked(c))
  }

  function ParseCidr(codec: Codec, cidr: string): (block: Option<BinaryCidr>)
    ensures block.Some? ==> WellFormed(block.value) && Masked(block.value) == block.value
  {
    var separator := FindLast(cidr, '/');
    if separator == |cidr| || separator == 0 || separator + 1 >= |cidr| then None
    else
      var prefix := ReadNat(cidr[separator + 1..]);
      var address := cidr[..separator];
      if prefix.None? then None
      else if codec.pton4(address).Some? then BlockOf(Inet4, codec.pton4(address), prefix.value)
      else BlockOf(Inet6, codec.pton6(address), prefix.value)
  }

  function FormatCidr(codec: Codec, c: BinaryCidr): string
    requires WellFormed(c)
  {
    codec.ntop(c.family, c.address[..ByteCount(c.family)]) + ['/'] + Show(c.prefix)
  }

  /** A canonical address text: no longer than INET6_ADDRSTRLEN allows, and made of address characters. */
  predicate AddressText(t: string) {
    0 < |t| <= 45 && forall i | 0 <= i < |t| :: t[i] != '/' && t[i] != ',' && t[i] != '\n'
  }

  /** What the C library promises: inet_ntop writes a text that inet_pton of the same family alone reads back. */
  ghost predicate CodecLaws(codec: Codec) {
    && (forall f, bytes | |bytes| == ByteCount(f) :: AddressText(codec.ntop(f, bytes)))
    && (forall bytes | |bytes| == 4 :: codec.pton4(codec.ntop(Inet4, bytes)) == Some(bytes))
    && (forall bytes | |bytes| == 16 :: codec.pton6(codec.ntop(Inet6, bytes)) == Some(bytes))
    && (forall bytes | |bytes| == 16 :: codec.pton4(codec.ntop(Inet6, bytes)) == None)
  }

  /** inet_pton reads the twelve fixed texts as the addresses they are. */
  ghost predicate ReadsFixed(codec: Codec) {
    forall i | 0 <= i < 12 :: ParseCidr(codec, FIXED_CIDRS[i]) == Some(FIXED_BLOCKS[i])
  }

  lemma ParseText(codec: Codec, address: string, prefix: nat)
    requires address != "" && forall i | 0 <= i < |address| :: address[i] != '/'
    ensures ParseCidr(codec, address + ['/'] + Show(prefix)) ==
      if codec.pton4(address).Some? then BlockOf(Inet4, codec.pton4(address), prefix)
      else BlockOf(Inet6, codec.pton6(address), prefix)
  {
    var digits := Show(prefix);
    assert forall i | 0 <= i < |digits| :: IsDigit(digits[i]);
    FindLastSplit(address, '/', digits);
    ReadShow(prefix);
  }

  lemma BlockOfOwnBytes(c: BinaryCidr)
    requires WellFormed(c) && Masked(c) == c
    ensures BlockOf(c.family, Some(c.address[..ByteCount(c.family)]), c.prefix) == Some(c)
  {
    assert Padded(c.address[..ByteCount(c.family)]) == c.address;
  }

  /** Parsing inverts formatting on every masked block. */
  lemma ParseInvertsFormat(codec: Codec, c: BinaryCidr)
    requires CodecLaws(codec) && WellFormed(c) && Masked(c) == c
    ensures ParseCidr(codec, FormatCidr(codec, c)) == Some(c)
  {
    var bytes := c.address[..ByteCount(c.family)];
    var address := codec.ntop(c.family, bytes);
    assert AddressText(address);
    ParseText(codec, address, c.prefix);
    BlockOfOwnBytes(c);
  }

  // ----- interface addresses

  const MAXIMUM_INTERFACE_CIDRS := 1024

  datatype Interface = Interface(name: string, up: bool, address: Option<(Family, seq<bv8>)>)

  predicate Eligible(f: Interface, excluded: string) {
    f.address.Some? && |f.address.value.1| == ByteCount(f.address.value.0) && f.up && f.name != excluded
  }

  function HostOf(f: Interface): (host: BinaryCidr)
    requires f.address.Some? && |f.address.value.1| == ByteCount(f.address.value.0)
    ensures IsHost(host)
  {
    BinaryCidr(f.address.value.0, Padded(f.address.value.1), Width(f.address.value.0))
  }

  predicate IsUnspecified(c: BinaryCidr)
    requires WellFormed(c)
  {
    forall i | 0 <= i < ByteCount(c.family) :: c.address[i] == 0
  }

  ghost predicate TextContains(codec: Codec, text: string, c: BinaryCidr)
    requires WellFormed(c)
  {
    ParseCidr(codec, text).Some? && Contains(ParseCidr(codec, text).value, c)
  }

  ghost predicate SomeTextContains(codec: Codec, texts: seq<string>, c: BinaryCidr)
    requires WellFormed(c)
  {
    exists i | 0 <= i < |texts| :: TextContains(codec, texts[i], c)
  }

  /** The host addresses that belong into the policy next to the fixed blocks. */
  ghost predicate Wanted(codec: Codec, fixed: seq<string>, c: BinaryCidr) {
    IsHost(c) && !IsUnspecified(c) && !Meet(c, TUN_SPACE) && !SomeTextContains(codec, fixed, c)
  }

  ghost function HostsOf(codec: Codec, fixed: seq<string>, interfaces: seq<Interface>, excluded: string): set<BinaryCidr> {
    set f | f in interfaces && Eligible(f, excluded) && Wanted(codec, fixed, HostOf(f)) :: HostOf(f)
  }

  ghost function TextsOf(codec: Codec, hosts: set<BinaryCidr>): set<string> {
    set h | h in hosts && WellFormed(h) :: FormatCidr(codec, h)
  }

  class Collector {
    const fixed: seq<string>
    var output: seq<string>
    var seen: set<string>
    ghost var hosts: seq<BinaryCidr>

    ghost predicate Valid(codec: Codec)
      reads this
    {
      && |output| == |hosts| <= MAXIMUM_INTERFACE_CIDRS
      && (forall i | 0 <= i < |hosts| :: Wanted(codec, fixed, hosts[i]) && output[i] == FormatCidr(codec, hosts[i]))
      && (forall i, j | 0 <= i < j < |hosts| :: hosts[i] != hosts[j])
      && (forall t :: t in seen <==> t in fixed || t in output)
    }

    constructor (codec: Codec, fixed: seq<string>)
      ensures Valid(codec) && hosts == [] && output == [] && this.fixed == fixed
    {
      this.fixed := fixed;
      output, hosts := [], [];
      seen := set t | t in fixed;
    }

    method CoveredBySeen(codec: Codec, c: BinaryCidr) returns (covered: bool)
      requires WellFormed(c)
      ensures covered <==> exists t | t in seen :: TextContains(codec, t, c)
    {
      var left := seen;
      while left != {}
        invariant left <= seen
        invariant forall t | t in seen && t !in left :: !TextContains(codec, t, c)
      {
        var text :| text in left;
        var existing := ParseCidr(codec, text);
        if existing.Some? {
          var contained := ContainsCidr(existing.value, c);
          if contained {
            assert TextContains(codec, text, c);
            return true;
          }
        }
        left := left - {text};
      }
      covered := false;
    }

    lemma SeenContainsMeans(codec: Codec, c: BinaryCidr)
      requires CodecLaws(codec) && Valid(codec) && IsHost(c)
      ensures (exists t | t in seen :: TextContains(codec, t, c)) <==> SomeTextContains(codec, fixed, c) || c in hosts
    {
      forall i | 0 <= i < |hosts|
        ensures TextContains(codec, output[i], c) <==> hosts[i] == c
      {
        HostContainsOnlyItself(hosts[i], hosts[i]);
        ParseInvertsFormat(codec, hosts[i]);
        HostContainsOnlyItself(hosts[i], c);
      }
      if SomeTextContains(codec, fixed, c) {
        var i :| 0 <= i < |fixed| && TextContains(codec, fixed[i], c);
        assert fixed[i] in seen;
      }
      if c in hosts {
        var i :| 0 <= i < |hosts| && hosts[i] == c;
        assert output[i] in seen;
      }
    }

    /** appendInterfaceAddress: a wanted new host is added, unless that makes too many. */
    method Append(codec: Codec, c: BinaryCidr) returns (ok: bool)
      requires CodecLaws(codec) && Valid(codec) && IsHost(c)
      modifies this
      ensures ok <==> !Wanted(codec, fixed, c) || c in old(hosts) || |old(hosts)| < MAXIMUM_INTERFACE_CIDRS
      ensures ok ==> Valid(codec)
      ensures hosts == if Wanted(codec, fixed, c) && c !in old(hosts) && ok then old(hosts) + [c] else old(hosts)
    {
      var inTunSpace := OverlapsTunAddressSpace(c);
      if IsUnspecified(c) || inTunSpace {
        return true;
      }
      var formatted := FormatCidr(codec, c);
      var covered := CoveredBySeen(codec, c);
      SeenContainsMeans(codec, c);
      if covered {
        return true;
      }
      HostContainsOnlyItself(c, c);
      ParseInvertsFormat(codec, c);
      assert TextContains(codec, formatted, c);
      ok := AddNew(codec, c, formatted);
    }

    /** The text is remembered, and added unless that makes too many. */
    method AddNew(codec: Codec, c: BinaryCidr, formatted: string) returns (ok: bool)
      requires Valid(codec) && Wanted(codec, fixed, c) && c !in hosts
      requires formatted == FormatCidr(codec, c) && formatted !in seen
      modifies this
      ensures ok <==> |old(hosts)| < MAXIMUM_INTERFACE_CIDRS
      ensures ok ==> Valid(codec)
      ensures hosts == if ok then old(hosts) + [c] else old(hosts)
    {
      seen := seen + {formatted};
      if |output| >= MAXIMUM_INTERFACE_CIDRS {
        return false;
      }
      output := output + [formatted];
      hosts := hosts + [c];
      ok := true;
    }
  }

  function Elements<T>(s: seq<T>): set<T> { set x | x in s }

  lemma {:induction false} DistinctCount<T>(s: seq<T>)
    requires forall i, j | 0 <= i < j < |s| :: s[i] != s[j]
    ensures |Elements(s)| == |s|
  {
    if s != [] {
      var shorter := s[..|s| - 1];
      DistinctCount(shorter);
      assert Elements(s) == Elements(shorter) + {s[|s| - 1]};
    }
  }

  /** What one interface adds. */
  ghost function HostsOfOne(codec: Codec, fixed: seq<string>, f: Interface, excluded: string): set<BinaryCidr> {
    if Eligible(f, excluded) && Wanted(codec, fixed, HostOf(f)) then {HostOf(f)} else {}
  }

  lemma HostsSnoc(codec: Codec, fixed: seq<string>, interfaces: seq<Interface>, f: Interface, excluded: string)
    ensures HostsOf(codec, fixed, interfaces + [f], excluded) ==
      HostsOf(codec, fixed, interfaces, excluded) + HostsOfOne(codec, fixed, f, excluded)
  {
  }

  lemma HostsOfPrefix(codec: Codec, fixed: seq<string>, interfaces: seq<Interface>, n: nat, excluded: string)
    requires n <= |interfaces|
    ensures |HostsOf(codec, fixed, interfaces[..n], excluded)| <= |HostsOf(codec, fixed, interfaces, excluded)|
  {
    FewerElements(HostsOf(codec, fixed, interfaces[..n], excluded), HostsOf(codec, fixed, interfaces, excluded));
  }

  lemma FewerElements<T>(a: set<T>, b: set<T>)
    requires a <= b
    ensures |a| <= |b|
  {
    assert b == a + (b - a);
  }

  method CollectOne(codec: Codec, collector: Collector, current: Interface, excluded: string) returns (ok: bool)
    requires CodecLaws(codec) && collector.Valid(codec)
    modifies collector
    ensures ok ==> collector.Valid(codec)
    ensures var after := Elements(old(collector.hosts)) + HostsOfOne(codec, collector.fixed, current, excluded);
      if ok then Elements(collector.hosts) == after else |after| > MAXIMUM_INTERFACE_CIDRS
  {
    if !Eligible(current, excluded) {
      return true;
    }
    var host := HostOf(current);
    ok := collector.Append(codec, host);
    AppendedElements(old(collector.hosts), host, Wanted(codec, collector.fixed, host), ok, collector.hosts);
  }

  lemma AppendedElements<T>(before: seq<T>, x: T, wanted: bool, ok: bool, after: seq<T>)
    requires |before| <= MAXIMUM_INTERFACE_CIDRS && forall i, j | 0 <= i < j < |before| :: before[i] != before[j]
    requires ok <==> !wanted || x in before || |before| < MAXIMUM_INTERFACE_CIDRS
    requires after == if wanted && x !in before && ok then before + [x] else before
    ensures var all := Elements(before) + if wanted then {x} else {};
      if ok then Elements(after) == all else |all| > MAXIMUM_INTERFACE_CIDRS
  {
    DistinctCount(before);
    assert x in Elements(before) <==> x in before;
    assert Elements(before + [x]) == Elements(before) + {x};
  }

  /** The loop over the interfaces. */
  method CollectAll(codec: Codec, collector: Collector, interfaces: seq<Interface>, excluded: string)
    returns (complete: bool)
    requires CodecLaws(codec) && collector.Valid(codec) && collector.hosts == []
    modifies collector
    ensures var hosts := HostsOf(codec, collector.fixed, interfaces, excluded);
      if complete then collector.Valid(codec) && Elements(collector.hosts) == hosts
      else |hosts| > MAXIMUM_INTERFACE_CIDRS
  {
    for i := 0 to |interfaces|
      invariant collector.Valid(codec)
      invariant Elements(collector.hosts) == HostsOf(codec, collector.fixed, interfaces[..i], excluded)
    {
      assert interfaces[..i + 1] == interfaces[..i] + [interfaces[i]];
      HostsSnoc(codec, collector.fixed, interfaces[..i], interfaces[i], excluded);
      var appended := CollectOne(codec, collector, interfaces[i], excluded);
      if !appended {
        HostsOfPrefix(codec, collector.fixed, interfaces, i + 1, excluded);
        return false;
      }
    }
    assert interfaces[..|interfaces|] == interfaces;
    complete := true;
  }

  /**
   collectInterfaceAddresses after getifaddrs: it fails exactly when there are more than 1024 wanted
   host addresses, and otherwise yields each of them once.
   */
  method CollectInterfaceAddresses(codec: Codec, fixed: seq<string>, interfaces: seq<Interface>, excluded: string)
    returns (r: Result<seq<string>>)
    requires CodecLaws(codec)
    ensures var hosts := HostsOf(codec, fixed, interfaces, excluded);
      && (r.Success? <==> |hosts| <= MAXIMUM_INTERFACE_CIDRS)
      && (r.Success? ==> Elements(r.value) == TextsOf(codec, hosts) && |r.value| == |hosts|)
  {
    var collector := new Collector(codec, fixed);
    var complete := CollectAll(codec, collector, interfaces, excluded);
    if !complete {
      return Failure(Error(StateError, "too many active interface addresses were detected"));
    }
    DistinctCount(collector.hosts);
    FormattedHosts(codec, collector.hosts, collector.output);
    r := Success(collector.output);
  }

  lemma FormattedHosts(codec: Codec, hosts: seq<BinaryCidr>, output: seq<string>)
    requires |hosts| == |output|
    requires forall i | 0 <= i < |hosts| :: WellFormed(hosts[i]) && output[i] == FormatCidr(codec, hosts[i])
    ensures Elements(output) == TextsOf(codec, Elements(hosts))
  {
    forall t | t in TextsOf(codec, Elements(hosts))
      ensures t in Elements(output)
    {
      var h :| h in hosts && WellFormed(h) && t == FormatCidr(codec, h);
      var i :| 0 <= i < |hosts| && hosts[i] == h;
      assert output[i] == t;
    }
    forall t | t in Elements(output)
      ensures t in TextsOf(codec, Elements(hosts))
    {
      var i :| 0 <= i < |output| && output[i] == t;
      assert hosts[i] in Elements(hosts);
    }
  }

  /** The order in which the interfaces are enumerated, and repetitions, do not matter. */
  lemma EnumerationOrderDoesNotMatter(
    codec: Codec, fixed: seq<string>, xs: seq<Interface>, ys: seq<Interface>, excluded: string)
    requires Elements(xs) == Elements(ys)
    ensures HostsOf(codec, fixed, xs, excluded) == HostsOf(codec, fixed, ys, excluded)
  {
    assert forall f :: f in xs <==> f in Elements(xs);
    assert forall f :: f in ys <==> f in Elements(ys);
  }

  // ----- the list of all bypassed blocks

  datatype Policy = Policy(fixed: seq<string>, interfaces: seq<string>, upstream: string)

  type Block = c: BinaryCidr | WellFormed(c) witness BinaryCidr(Inet4, seq(16, _ => 0), 0)

  datatype Entry = Entry(text: string, block: Block)

  ghost predicate AnyContains(entries: seq<Entry>, c: BinaryCidr)
    requires WellFormed(c)
  {
    exists i | 0 <= i < |entries| :: Contains(entries[i].block, c)
  }

  /** The append lambda of allCidrs. */
  ghost function AppendCidr(codec: Codec, entries: seq<Entry>, cidr: string, mandatory: bool): seq<Entry> {
    var parsed := ParseCidr(codec, cidr);
    if cidr == "" || parsed.None? then entries
    else if !mandatory && AnyContains(entries, parsed.value) then entries
    else if exists i | 0 <= i < |entries| :: entries[i].block == parsed.value then entries
    else entries + [Entry(cidr, parsed.value)]
  }

  ghost function AppendAll(codec: Codec, entries: seq<Entry>, cidrs: seq<string>): seq<Entry>
    decreases |cidrs|
  {
    if cidrs == [] then entries
    else AppendAll(codec, AppendCidr(codec, entries, cidrs[0], false), cidrs[1..])
  }

  ghost function AllEntries(codec: Codec, policy: Policy): seq<Entry> {
    AppendAll(codec, AppendAll(codec, AppendCidr(codec, [], policy.upstream, true), policy.fixed), policy.interfaces)
  }

  ghost function EntryTexts(entries: seq<Entry>): seq<string> {
    seq(|entries|, i requires 0 <= i < |entries| => entries[i].text)
  }

  class CidrList {
    var output: seq<string>
    var parsedOutput: seq<Block>

    ghost predicate Valid()
      reads this
    {
      |output| == |parsedOutput|
    }

    ghost function Entries(): (e: seq<Entry>)
      requires Valid()
      reads this
      ensures EntryTexts(e) == output
      ensures |e| == |output| && forall i | 0 <= i < |e| :: e[i] == Entry(output[i], parsedOutput[i])
    {
      var texts, blocks := output, parsedOutput;
      var e := seq(|texts|, i requires 0 <= i < |texts| => Entry(texts[i], blocks[i]));
      assert EntryTexts(e) == texts;
      e
    }

    constructor ()
      ensures Valid() && Entries() == []
    {
      output, parsedOutput := [], [];
    }

    method Append(codec: Codec, cidr: string, mandatory: bool)
      requires Valid()
      modifies this
      ensures Valid() && Entries() == AppendCidr(codec, old(Entries()), cidr, mandatory)
    {
      if cidr == "" {
        return;
      }
      var parsed := ParseCidr(codec, cidr);
      if parsed.None? {
        return;
      }
      if !mandatory {
        var contained := AnyOfContains(parsedOutput, parsed.value);
        if contained {
          return;
        }
      }
      var present := AnyOfEquals(parsedOutput, parsed.value);
      if present {
        return;
      }
      ghost var entries := Entries();
      output := output + [cidr];
      parsedOutput := parsedOutput + [parsed.value];
      assert Entries() == entries + [Entry(cidr, parsed.value)];
    }
  }

  method AnyOfContains(blocks: seq<Block>, c: BinaryCidr) returns (found: bool)
    requires WellFormed(c)
    ensures found <==> exists i | 0 <= i < |blocks| :: Contains(blocks[i], c)
  {
    for i := 0 to |blocks|
      invariant forall j | 0 <= j < i :: !Contains(blocks[j], c)
    {
      var contained := ContainsCidr(blocks[i], c);
      if contained {
        return true;
      }
    }
    found := false;
  }

  method AnyOfEquals(blocks: seq<Block>, c: BinaryCidr) returns (found: bool)
    ensures found <==> exists i | 0 <= i < |blocks| :: blocks[i] == c
  {
    for i := 0 to |blocks|
      invariant forall j | 0 <= j < i :: blocks[j] != c
    {
      if blocks[i] == c {
        return true;
      }
    }
    found := false;
  }

  method AllCidrs(codec: Codec, policy: Policy) returns (output: seq<string>)
    ensures output == EntryTexts(AllEntries(codec, policy))
  {
    var list := new CidrList();
    if policy.upstream != "" {
      list.Append(codec, policy.upstream, true);
    }
    AppendEach(codec, list, policy.fixed);
    AppendEach(codec, list, policy.interfaces);
    output := list.output;
  }

  method AppendEach(codec: Codec, list: CidrList, cidrs: seq<string>)
    requires list.Valid()
    modifies list
    ensures list.Valid() && list.Entries() == AppendAll(codec, old(list.Entries()), cidrs)
  {
    for i := 0 to |cidrs|
      invariant list.Valid()
      invariant AppendAll(codec, list.Entries(), cidrs[i..]) == AppendAll(codec, old(list.Entries()), cidrs)
    {
      assert cidrs[i..][0] == cidrs[i] && cidrs[i..][1..] == cidrs[i + 1..];
      list.Append(codec, cidrs[i], false);
    }
  }

  // ----- what the list keeps

  /** Entries parsed from their texts, none inside an earlier one. */
  ghost predicate Minimal(codec: Codec, entries: seq<Entry>) {
    && (forall i | 0 <= i < |entries| :: entries[i].text != "" && ParseCidr(codec, entries[i].text) == Some(entries[i].block))
    && (forall i, j | 0 <= i < j < |entries| :: !Contains(entries[i].block, entries[j].block))
  }

  ghost predicate TextCovers(codec: Codec, cidr: string, a: Address) {
    cidr != "" && ParseCidr(codec, cidr).Some? && Covers(ParseCidr(codec, cidr).value, a)
  }

  ghost predicate SomeTextCovers(codec: Codec, cidrs: seq<string>, a: Address) {
    exists i | 0 <= i < |cidrs| :: TextCovers(codec, cidrs[i], a)
  }

  ghost predicate EntriesCover(entries: seq<Entry>, a: Address) {
    exists i | 0 <= i < |entries| :: Covers(entries[i].block, a)
  }

  lemma AppendKeeps(codec: Codec, entries: seq<Entry>, cidr: string, mandatory: bool, a: Address)
    requires Minimal(codec, entries) && (mandatory ==> entries == [])
    ensures var after := AppendCidr(codec, entries, cidr, mandatory);
      && Minimal(codec, after) && entries <= after && |after| <= |entries| + 1
      && (EntriesCover(after, a) <==> EntriesCover(entries, a) || TextCovers(codec, cidr, a))
  {
    var after := AppendCidr(codec, entries, cidr, mandatory);
    var parsed := ParseCidr(codec, cidr);
    if cidr != "" && parsed.Some? {
      var c := parsed.value;
      if AnyContains(entries, c) {
        var i :| 0 <= i < |entries| && Contains(entries[i].block, c);
        ContainsIffSubset(entries[i].block, c);
      }
      if after != entries {
        assert after[|entries|].block == c;
        assert forall i | 0 <= i < |entries| :: after[i] == entries[i];
      }
    }
  }

  lemma {:induction false} AppendAllKeeps(codec: Codec, entries: seq<Entry>, cidrs: seq<string>)
    requires Minimal(codec, entries)
    ensures var after := AppendAll(codec, entries, cidrs);
      Minimal(codec, after) && entries <= after && |after| <= |entries| + |cidrs|
    decreases |cidrs|
  {
    if cidrs != [] {
      AppendKeeps(codec, entries, cidrs[0], false, Address(Inet4, 0));
      AppendAllKeeps(codec, AppendCidr(codec, entries, cidrs[0], false), cidrs[1..]);
    }
  }

  lemma SomeTextCoversCons(codec: Codec, cidrs: seq<string>, a: Address)
    requires cidrs != []
    ensures SomeTextCovers(codec, cidrs, a) <==>
      TextCovers(codec, cidrs[0], a) || SomeTextCovers(codec, cidrs[1..], a)
  {
    assert forall i | 0 < i < |cidrs| :: cidrs[i] == cidrs[1..][i - 1];
    assert forall i | 0 <= i < |cidrs| - 1 :: cidrs[1..][i] == cidrs[i + 1];
  }

  lemma {:induction false} AppendAllCovers(codec: Codec, entries: seq<Entry>, cidrs: seq<string>, a: Address)
    requires Minimal(codec, entries)
    ensures EntriesCover(AppendAll(codec, entries, cidrs), a) <==>
      EntriesCover(entries, a) || SomeTextCovers(codec, cidrs, a)
    decreases |cidrs|
  {
    if cidrs != [] {
      AppendKeeps(codec, entries, cidrs[0], false, a);
      AppendAllCovers(codec, AppendCidr(codec, entries, cidrs[0], false), cidrs[1..], a);
      SomeTextCoversCons(codec, cidrs, a);
    }
  }

  /** The upstream block comes first; every later entry is new and in no earlier one; nothing is covered less or more. */
  lemma AllCidrsKeeps(codec: Codec, policy: Policy, a: Address)
    ensures var e := AllEntries(codec, policy);
      && Minimal(codec, e) && |e| <= 1 + |policy.fixed| + |policy.interfaces|
      && (policy.upstream != "" && ParseCidr(codec, policy.upstream).Some? ==> |e| > 0 && e[0].text == policy.upstream)
      && (EntriesCover(e, a) <==>
            || TextCovers(codec, policy.upstream, a)
            || SomeTextCovers(codec, policy.fixed, a) || SomeTextCovers(codec, policy.interfaces, a))
  {
    var first := AppendCidr(codec, [], policy.upstream, true);
    AppendKeeps(codec, [], policy.upstream, true, a);
    AppendAllKeeps(codec, first, policy.fixed);
    AppendAllCovers(codec, first, policy.fixed, a);
    var second := AppendAll(codec, first, policy.fixed);
    AppendAllKeeps(codec, second, policy.interfaces);
    AppendAllCovers(codec, second, policy.interfaces, a);
  }

  /** No text and no block is listed twice. */
  lemma AllCidrsDistinct(codec: Codec, policy: Policy, i: nat, j: nat)
    requires i < j < |AllEntries(codec, policy)|
    ensures AllEntries(codec, policy)[i].block != AllEntries(codec, policy)[j].block
    ensures AllEntries(codec, policy)[i].text != AllEntries(codec, policy)[j].text
  {
    AllCidrsKeeps(codec, policy, Address(Inet4, 0));
    var e := AllEntries(codec, policy);
    ContainsItself(e[i].block);
    assert ParseCidr(codec, e[i].text) == Some(e[i].block) && ParseCidr(codec, e[j].text) == Some(e[j].block);
  }

  lemma ContainsItself(c: BinaryCidr)
    requires WellFormed(c)
    ensures Contains(c, c)
  {
  }

  lemma AppendNew(codec: Codec, entries: seq<Entry>, next: Entry)
    requires next.text != "" && ParseCidr(codec, next.text) == Some(next.block)
    requires !AnyContains(entries, next.block)
    ensures AppendCidr(codec, entries, next.text, false) == entries + [next]
  {
    forall i | 0 <= i < |entries|
      ensures entries[i].block != next.block
    {
      ContainsItself(next.block);
    }
  }

  lemma AppendNext(codec: Codec, e: seq<Entry>, k: nat)
    requires Minimal(codec, e) && k < |e|
    ensures AppendCidr(codec, e[..k], e[k].text, false) == e[..k + 1]
  {
    assert forall i | 0 <= i < k :: e[..k][i] == e[i];
    assert ParseCidr(codec, e[k].text) == Some(e[k].block);
    AppendNew(codec, e[..k], e[k]);
    assert e[..k] + [e[k]] == e[..k + 1];
  }

  lemma {:induction false} AppendRest(codec: Codec, e: seq<Entry>, k: nat)
    requires Minimal(codec, e) && k <= |e|
    ensures AppendAll(codec, e[..k], EntryTexts(e)[k..]) == e
    decreases |e| - k
  {
    if k == |e| {
      assert e[..k] == e;
    } else {
      var texts := EntryTexts(e)[k..];
      assert texts[0] == e[k].text && texts[1..] == EntryTexts(e)[k + 1..];
      AppendNext(codec, e, k);
      AppendRest(codec, e, k + 1);
    }
  }

  lemma FirstAgain(codec: Codec, e: seq<Entry>)
    requires Minimal(codec, e) && e != []
    ensures AppendCidr(codec, e[..1], e[0].text, false) == e[..1]
  {
    ContainsItself(e[0].block);
    assert e[..1][0] == e[0] && ParseCidr(codec, e[0].text) == Some(e[0].block);
  }

  /** Minimising the list again, with the same upstream, changes nothing. */
  lemma MinimisingAgainChangesNothing(codec: Codec, policy: Policy)
    ensures var e := AllEntries(codec, policy);
      AllEntries(codec, Policy(EntryTexts(e), [], policy.upstream)) == e
  {
    AllCidrsKeeps(codec, policy, Address(Inet4, 0));
    var e := AllEntries(codec, policy);
    var first := AppendCidr(codec, [], policy.upstream, true);
    if first == [] {
      assert e[..0] == [] && EntryTexts(e)[0..] == EntryTexts(e);
      AppendRest(codec, e, 0);
    } else {
      assert first == e[..1] && EntryTexts(e)[0] == e[0].text;
      FirstAgain(codec, e);
      AppendRest(codec, e, 1);
    }
  }

  // ----- collectBypassPolicy

  function AddressHostCidr(codec: Codec, address: string): (r: Option<string>) {
    var bytes4, bytes6 := codec.pton4(address), codec.pton6(address);
    if bytes4.Some? && |bytes4.value| == 4 then HostText(codec, Inet4, bytes4.value)
    else if bytes6.Some? && |bytes6.value| == 16 then HostText(codec, Inet6, bytes6.value)
    else None
  }

  function HostText(codec: Codec, family: Family, bytes: seq<bv8>): Option<string>
    requires |bytes| == ByteCount(family)
  {
    var c := BinaryCidr(family, Padded(bytes), Width(family));
    if IsUnspecified(c) then None else Some(FormatCidr(codec, c))
  }

  /** What collectBypassPolicy promises about a policy it made of these interfaces. */
  ghost predicate Collected(codec: Codec, policy: Policy, interfaces: seq<Interface>, excluded: string) {
    && policy.fixed == FIXED_CIDRS && |policy.interfaces| <= MAXIMUM_INTERFACE_CIDRS
    && Elements(policy.interfaces) == TextsOf(codec, HostsOf(codec, policy.fixed, interfaces, excluded))
    && (policy.upstream == "" || exists address :: AddressHostCidr(codec, address) == Some(policy.upstream))
  }

  /** `interfaces` is what getifaddrs found, if it did not fail. */
  method CollectBypassPolicy(
    codec: Codec, interfaces: Option<seq<Interface>>, upstreamAddress: string, excluded: string)
    returns (r: Result<Policy>)
    requires CodecLaws(codec)
    ensures r.Success? <==>
      && interfaces.Some? && |HostsOf(codec, FIXED_CIDRS, interfaces.value, excluded)| <= MAXIMUM_INTERFACE_CIDRS
      && (upstreamAddress == "" || AddressHostCidr(codec, upstreamAddress).Some?)
    ensures r.Success? ==>
      && r.value.fixed == FIXED_CIDRS
      && |r.value.interfaces| <= MAXIMUM_INTERFACE_CIDRS
      && Elements(r.value.interfaces) == TextsOf(codec, HostsOf(codec, FIXED_CIDRS, interfaces.value, excluded))
      && r.value.upstream == if upstreamAddress == "" then "" else AddressHostCidr(codec, upstreamAddress).value
  {
    if interfaces.None? {
      return Failure(Error(StateError, "cannot enumerate local interface addresses"));
    }
    var collected := CollectInterfaceAddresses(codec, FIXED_CIDRS, interfaces.value, excluded);
    if collected.Failure? {
      return Failure(collected.error);
    }
    var upstream := "";
    if upstreamAddress != "" {
      var host := AddressHostCidr(codec, upstreamAddress);
      if host.None? {
        return Failure(Error(InvalidConfiguration, "upstream address is not usable"));
      }
      upstream := host.value;
    }
    r := Success(Policy(FIXED_CIDRS, collected.value, upstream));
  }
}
