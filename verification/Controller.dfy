/**
 The controller's bypass listing and its bound, and what start() puts together from the configuration,
 the resolved upstream and the policy.
 */
module Controller {
  import opened Common
  import Text
  import Config
  import Cidrs
  import opened BypassPolicy
  import opened RuntimeStates
  import opened Worlds
  import LifecycleRuns
  import ProxyManager
  import Ipc

  // ----- texts of a policy

  lemma FormattedIsPlain(codec: Codec, c: Cidrs.BinaryCidr)
    requires CodecLaws(codec) && Cidrs.WellFormed(c)
    ensures PlainCidr(FormatCidr(codec, c))
  {
    var address, digits := codec.ntop(c.family, c.address[..Cidrs.ByteCount(c.family)]), Text.Show(c.prefix);
    assert AddressText(address);
    assert Text.Pow10(3) == 1000;
    Text.ShowLength(c.prefix, 3);
    assert forall i | 0 <= i < |digits| :: Text.IsDigit(digits[i]);
  }

  lemma FixedIsPlain(i: nat)
    requires i < 12
    ensures PlainCidr(FIXED_CIDRS[i])
  {
    if i < 4 {
    } else if i < 8 {
    }
  }

  lemma FixedArePlain()
    ensures AllPlain(FIXED_CIDRS)
  {
    forall i | 0 <= i < 12
      ensures PlainCidr(FIXED_CIDRS[i])
    {
      FixedIsPlain(i);
    }
  }

  lemma HostCidrIsPlain(codec: Codec, address: string)
    requires CodecLaws(codec) && AddressHostCidr(codec, address).Some?
    ensures PlainCidr(AddressHostCidr(codec, address).value)
  {
    var bytes4, bytes6 := codec.pton4(address), codec.pton6(address);
    if bytes4.Some? && |bytes4.value| == 4 {
      FormattedIsPlain(codec, Cidrs.BinaryCidr(Cidrs.Inet4, Padded(bytes4.value), 32));
    } else {
      FormattedIsPlain(codec, Cidrs.BinaryCidr(Cidrs.Inet6, Padded(bytes6.value), 128));
    }
  }

  /** A policy of plain texts within the limits. */
  ghost predicate Moderate(policy: Policy) {
    && AllPlain(policy.fixed) && |policy.fixed| <= 12
    && AllPlain(policy.interfaces) && |policy.interfaces| <= MAXIMUM_INTERFACE_CIDRS
    && (policy.upstream == "" || PlainCidr(policy.upstream))
  }

  lemma CollectedTextsArePlain(codec: Codec, texts: seq<string>, hosts: set<Cidrs.BinaryCidr>)
    requires CodecLaws(codec) && Elements(texts) == TextsOf(codec, hosts)
    ensures AllPlain(texts)
  {
    forall i | 0 <= i < |texts|
      ensures PlainCidr(texts[i])
    {
      assert texts[i] in Elements(texts);
      var h :| h in hosts && Cidrs.WellFormed(h) && texts[i] == FormatCidr(codec, h);
      FormattedIsPlain(codec, h);
    }
  }

  /** Every policy that collectBypassPolicy makes is within these limits. */
  lemma CollectedIsModerate(codec: Codec, policy: Policy, interfaces: seq<Interface>, excluded: string)
    requires CodecLaws(codec) && Collected(codec, policy, interfaces, excluded)
    ensures Moderate(policy)
  {
    FixedArePlain();
    CollectedTextsArePlain(codec, policy.interfaces, HostsOf(codec, policy.fixed, interfaces, excluded));
    if policy.upstream != "" {
      var address :| AddressHostCidr(codec, address) == Some(policy.upstream);
      HostCidrIsPlain(codec, address);
    }
  }

  ghost predicate EntriesPlain(entries: seq<Entry>) {
    forall i | 0 <= i < |entries| :: PlainCidr(entries[i].text)
  }

  lemma {:induction false} AppendedArePlain(codec: Codec, entries: seq<Entry>, cidrs: seq<string>)
    requires EntriesPlain(entries) && AllPlain(cidrs)
    ensures EntriesPlain(AppendAll(codec, entries, cidrs))
    decreases |cidrs|
  {
    if cidrs != [] {
      AppendedArePlain(codec, AppendCidr(codec, entries, cidrs[0], false), cidrs[1..]);
    }
  }

  /** The list of all CIDRs of a moderate policy: at most 1 + 12 + 1024 plain texts. */
  lemma AllCidrsArePlain(codec: Codec, policy: Policy)
    requires Moderate(policy)
    ensures var texts := EntryTexts(AllEntries(codec, policy));
      AllPlain(texts) && |texts| <= 1 + 12 + MAXIMUM_INTERFACE_CIDRS
  {
    AllCidrsKeeps(codec, policy, Cidrs.Address(Cidrs.Inet4, 0));
    var first := AppendCidr(codec, [], policy.upstream, true);
    AppendedArePlain(codec, first, policy.fixed);
    AppendedArePlain(codec, AppendAll(codec, first, policy.fixed), policy.interfaces);
  }

  // ----- the listing

  function Lines(cidrs: seq<string>): string {
    if cidrs == [] then "" else ([' ', ' '] + cidrs[0] + ['\n']) + Lines(cidrs[1..])
  }

  function Heading(active: bool, count: nat, upstream: string): string {
    "Bypass: " + (if active then "active" else "preview") + ", " + Text.Show(count) + " CIDRs\n"
    + (if upstream == "" then "" else "Upstream: " + upstream + "\n")
  }

  function Listing(active: bool, cidrs: seq<string>, upstream: string): string {
    Heading(active, |cidrs|, upstream) + Lines(cidrs)
  }

  method WriteListing(active: bool, cidrs: seq<string>, upstream: string) returns (output: string)
    ensures output == Listing(active, cidrs, upstream)
  {
    output := Heading(active, |cidrs|, upstream);
    for i := 0 to |cidrs|
      invariant output + Lines(cidrs[i..]) == Listing(active, cidrs, upstream)
    {
      assert cidrs[i..][1..] == cidrs[i + 1..];
      Text.ConcatAssociates(output, [' ', ' '] + cidrs[i] + ['\n'], Lines(cidrs[i + 1..]));
      output := output + ([' ', ' '] + cidrs[i] + ['\n']);
    }
  }

  lemma {:induction false} LinesLength(cidrs: seq<string>)
    requires AllPlain(cidrs)
    ensures |Lines(cidrs)| <= 52 * |cidrs|
  {
    if cidrs != [] {
      LinesLength(cidrs[1..]);
    }
  }

  lemma HeadingLength(active: bool, count: nat, upstream: string)
    requires count < 10000 && |upstream| <= 49
    ensures |Heading(active, count, upstream)| <= 100
  {
    assert Text.Pow10(4) == 10000;
    Text.ShowLength(count, 4);
  }

  /** Every answer to `bypass` fits one frame. */
  lemma ListingFitsOneFrame(active: bool, cidrs: seq<string>, upstream: string)
    requires AllPlain(cidrs) && |cidrs| <= 1 + 12 + MAXIMUM_INTERFACE_CIDRS
    requires upstream == "" || PlainCidr(upstream)
    ensures |Listing(active, cidrs, upstream)| <= Ipc.MAXIMUM_PAYLOAD
  {
    LinesLength(cidrs);
    HeadingLength(active, |cidrs|, upstream);
  }

  /** The preview of the next start lists the policy of the present interfaces. */
  lemma PreviewFits(codec: Codec, policy: Policy)
    requires Moderate(policy)
    ensures |Listing(false, EntryTexts(AllEntries(codec, policy)), "")| <= Ipc.MAXIMUM_PAYLOAD
  {
    AllCidrsArePlain(codec, policy);
    ListingFitsOneFrame(false, EntryTexts(AllEntries(codec, policy)), "");
  }

  function PinnedCidr(codec: Codec, address: string): string {
    var pinned := AddressHostCidr(codec, address);
    if pinned.Some? then pinned.value else ""
  }

  /** The active listing shows what start() recorded, read back from the state file, and fits as well. */
  lemma ActiveListingFits(codec: Codec, policy: Policy, r: RuntimeState)
    requires CodecLaws(codec) && Moderate(policy)
    requires r.bypassCidrs == EntryTexts(AllEntries(codec, policy)) && Savable(r)
    ensures var loaded := Decode(Encode(r));
      && loaded.Success? && loaded.value.bypassCidrs == EntryTexts(AllEntries(codec, policy))
      && |Listing(true, loaded.value.bypassCidrs, PinnedCidr(codec, loaded.value.upstreamAddress))| <= Ipc.MAXIMUM_PAYLOAD
  {
    LoadInvertsSave(r);
    AllCidrsArePlain(codec, policy);
    PinnedIsPlain(codec, r.upstreamAddress);
    ListingFitsOneFrame(true, r.bypassCidrs, PinnedCidr(codec, r.upstreamAddress));
  }

  // ----- what start() records

  lemma PlainListsAreListable(texts: seq<string>)
    requires AllPlain(texts)
    ensures Listable(texts) && AllOneLine(texts)
  {
    forall i | 0 <= i < |texts|
      ensures texts[i] != "" && ',' !in texts[i] && '\n' !in texts[i]
    {
      assert PlainCidr(texts[i]);
    }
  }

  predicate OneLineText(t: string) { t != "" && '\n' !in t }

  /** A plan with a one-line upstream and a policy's list can be recorded exactly if its other texts allow it. */
  lemma PlanIsRecordable(plan: ProxyManager.Plan)
    requires OneLineText(plan.upstream) && PolicyList(plan.bypass)
    ensures ProxyManager.Recordable(plan) <==>
      OneLineText(plan.executable) && OneLineText(plan.version) && '\n' !in plan.address
  {
    PlainListsAreListable(plan.bypass);
  }

  /**
   A valid configuration and a policy within the limits make a record that the state file can hold exactly
   if executable and version are non-empty lines and the resolved address has no newline.
   */
  lemma StartPlansAreRecordable(
    codec: Codec, upstream: Config.Upstream, address: string, policy: Policy, executable: string, version: string)
    requires Moderate(policy) && Config.ValidUpstream(upstream)
    ensures ProxyManager.Recordable(ProxyManager.Plan(
        Config.FormatUpstreamUri(upstream), address, EntryTexts(AllEntries(codec, policy)), executable, version))
      <==> OneLineText(executable) && OneLineText(version) && '\n' !in address
  {
    AllCidrsArePlain(codec, policy);
    Config.UriIsOneLine(upstream);
    PlanIsRecordable(ProxyManager.Plan(
      Config.FormatUpstreamUri(upstream), address, EntryTexts(AllEntries(codec, policy)), executable, version));
  }

  // ----- the bypass command

  /** A core that is up was recorded with the list of a policy. */
  predicate Listed(status: ProxyManager.ProxyStatus) {
    status.running ==> PolicyList(status.bypassCidrs)
  }

  ghost predicate PreviewPossible(codec: Codec, interfaces: Option<seq<Interface>>, tunInterface: string) {
    interfaces.Some? && |HostsOf(codec, FIXED_CIDRS, interfaces.value, tunInterface)| <= MAXIMUM_INTERFACE_CIDRS
  }

  /** A policy as collectBypassPolicy makes it for the present interfaces, without an upstream. */
  ghost predicate Previewed(
    codec: Codec, policy: Policy, interfaces: Option<seq<Interface>>, tunInterface: string)
  {
    interfaces.Some? && policy.upstream == "" && Collected(codec, policy, interfaces.value, tunInterface)
  }

  /** The running core's list, or a preview of the policy of the present interfaces. */
  method BypassCommand(codec: Codec, argument: string, status: ProxyManager.ProxyStatus,
                       interfaces: Option<seq<Interface>>, tunInterface: string)
    returns (r: Result<string>)
    requires CodecLaws(codec)
    ensures argument != "" ==> r.Failure? && r.error.code == InvalidArguments
    ensures r.Success? && Listed(status) ==> |r.value| <= Ipc.MAXIMUM_PAYLOAD
    ensures argument == "" && status.running && status.bypassCidrs != [] ==>
      r == Success(Listing(true, status.bypassCidrs, PinnedCidr(codec, status.upstreamAddress)))
    ensures argument == "" && !(status.running && status.bypassCidrs != []) ==>
      && (r.Success? <==> PreviewPossible(codec, interfaces, tunInterface))
      && (r.Success? ==> exists policy | Previewed(codec, policy, interfaces, tunInterface) ::
            r.value == Listing(false, EntryTexts(AllEntries(codec, policy)), ""))
  {
    if argument != "" {
      return Failure(Error(InvalidArguments, "bypass takes no argument"));
    }
    if status.running && status.bypassCidrs != [] {
      var pinned := PinnedCidr(codec, status.upstreamAddress);
      PinnedIsPlain(codec, status.upstreamAddress);
      if Listed(status) {
        ListingFitsOneFrame(true, status.bypassCidrs, pinned);
      }
      var active := WriteListing(true, status.bypassCidrs, pinned);
      return Success(active);
    }
    var preview := CollectBypassPolicy(codec, interfaces, "", tunInterface);
    if preview.Failure? {
      return Failure(preview.error);
    }
    assert Previewed(codec, preview.value, interfaces, tunInterface);
    var cidrs := AllCidrs(codec, preview.value);
    CollectedIsModerate(codec, preview.value, interfaces.value, tunInterface);
    PreviewFits(codec, preview.value);
    var listing := WriteListing(false, cidrs, "");
    r := Success(listing);
  }

  lemma PinnedIsPlain(codec: Codec, address: string)
    requires CodecLaws(codec)
    ensures PinnedCidr(codec, address) == "" || PlainCidr(PinnedCidr(codec, address))
  {
    if AddressHostCidr(codec, address).Some? {
      HostCidrIsPlain(codec, address);
    }
  }

  // ----- the bypass command beside any run

  /** Whatever an unlocked status() reports at any steps of a run, its list is that of a policy. */
  lemma ReportedListsAreListed(trace: Trace, i: nat, j: nat, readable: bool, idle: ProxyManager.ProxyStatus)
    requires Lawful(trace) && i <= j < |trace| && LifecycleRuns.ListOnFile(trace[0].state.file) && !idle.running
    ensures Listed(LifecycleRuns.StatusSeen(trace, i, j, readable, idle))
  {
    LifecycleRuns.ListsArePolicies(trace, i);
  }

  /** status() after any commands and crashes. */
  method StatusAfterRun(w: World, requests: seq<LifecycleRuns.Request>, idle: ProxyManager.ProxyStatus)
    returns (status: ProxyManager.ProxyStatus)
    requires w.Valid() && Settled(w.now) && LifecycleRuns.ListOnFile(w.trace[0].state.file) && !idle.running
    requires forall i | 0 <= i < |requests| :: LifecycleRuns.Sensible(requests[i])
    modifies w
    ensures w.Valid() && old(w.trace) <= w.trace && Listed(status)
  {
    LifecycleRuns.Run(w, requests);
    status := ProxyManager.Status(w, idle);
    LifecycleRuns.ListsArePolicies(w.trace, |w.trace| - 1);
  }

  /** So then every answer to `bypass` fits one frame. */
  method BypassAfterRun(
    w: World, requests: seq<LifecycleRuns.Request>, codec: Codec, argument: string, idle: ProxyManager.ProxyStatus,
    interfaces: Option<seq<Interface>>, tunInterface: string)
    returns (r: Result<string>)
    requires w.Valid() && Settled(w.now) && LifecycleRuns.ListOnFile(w.trace[0].state.file) && !idle.running
    requires forall i | 0 <= i < |requests| :: LifecycleRuns.Sensible(requests[i])
    requires CodecLaws(codec)
    modifies w
    ensures r.Success? ==> |r.value| <= Ipc.MAXIMUM_PAYLOAD
  {
    var status := StatusAfterRun(w, requests, idle);
    r := BypassCommand(codec, argument, status, interfaces, tunInterface);
  }
}
