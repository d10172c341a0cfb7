/** The persisted runtime record: its text form, the loader, and the file that holds it. */
module RuntimeStates {
  import opened Common
  import opened Text

  datatype RuntimeState = RuntimeState(
    pid: int,
    startTicks: int,
    executable: string,
    coreVersion: string,
    upstream: string,
    routingMode: string,
    upstreamAddress: string,
    bypassCidrs: seq<string>,
    phase: string)

  // ----- comma-separated CIDR lists

  function SplitCidrs(text: string): seq<string> {
    if text == "" then []
    else
      var separator := Find(text, ',');
      var head := if separator == 0 then [] else [text[..separator]];
      if separator == |text| then head else head + SplitCidrs(text[separator + 1..])
  }

  function JoinCidrs(values: seq<string>): string {
    if values == [] then ""
    else if |values| == 1 then values[0]
    else values[0] + [','] + JoinCidrs(values[1..])
  }

  predicate Listable(values: seq<string>) {
    forall i | 0 <= i < |values| :: values[i] != "" && ',' !in values[i]
  }

  /** What is left to read from `offset` on. */
  ghost function Remaining(text: string, offset: nat): seq<string> {
    if offset <= |text| then SplitCidrs(text[offset..]) else []
  }

  /** The entry at `offset`, if it is not empty, and where the next one starts. */
  function NextCidr(text: string, offset: nat): (next: (seq<string>, nat))
    requires offset < |text|
    ensures offset < next.1
  {
    var length := Find(text[offset..], ',');
    (if length == 0 then [] else [text[offset..][..length]], offset + length + 1)
  }

  lemma RemainingSplits(text: string, offset: nat)
    requires offset < |text|
    ensures var (value, next) := NextCidr(text, offset);
      Remaining(text, offset) == value + Remaining(text, next)
  {
    var rest := text[offset..];
    var length := Find(rest, ',');
    if length < |rest| {
      assert rest[length + 1..] == text[offset + length + 1..];
    }
  }

  method ReadCidrs(text: string) returns (output: seq<string>)
    ensures output == SplitCidrs(text)
  {
    output := [];
    var offset := 0;
    assert text[0..] == text;
    while offset < |text|
      invariant output + Remaining(text, offset) == Remaining(text, 0)
      decreases |text| - offset
    {
      var (value, next) := NextCidr(text, offset);
      RemainingSplits(text, offset);
      ConcatAssociates(output, value, Remaining(text, next));
      output, offset := output + value, next;
    }
  }

  method WriteCidrs(values: seq<string>) returns (output: string)
    ensures output == JoinCidrs(values)
  {
    output := "";
    for index := 0 to |values|
      invariant output == JoinCidrs(values[..index])
    {
      JoinSnoc(values[..index], values[index]);
      assert values[..index] + [values[index]] == values[..index + 1];
      if index != 0 {
        output := output + ",";
      }
      output := output + values[index];
    }
    assert values[..|values|] == values;
  }

  lemma {:induction false} JoinSnoc(values: seq<string>, last: string)
    ensures JoinCidrs(values + [last]) ==
      if values == [] then last else JoinCidrs(values) + [','] + last
  {
    if values != [] {
      JoinSnoc(values[1..], last);
      assert (values + [last])[1..] == values[1..] + [last];
    }
  }

  /** The list survives the state file exactly when no entry is empty or holds a comma. */
  lemma {:induction false} SplitJoin(values: seq<string>)
    ensures SplitCidrs(JoinCidrs(values)) == values <==> Listable(values)
  {
    SplitIsListable(JoinCidrs(values));
    if Listable(values) {
      SplitJoinListable(values);
    }
  }

  lemma SplitOne(value: string, rest: string)
    requires value != "" && ',' !in value
    ensures SplitCidrs(value + [','] + rest) == [value] + SplitCidrs(rest)
  {
    FindSplit(value, ',', rest);
  }

  lemma SplitLast(value: string)
    requires value != "" && ',' !in value
    ensures SplitCidrs(value) == [value]
  {
    assert Find(value, ',') == |value| && value[..|value|] == value;
  }

  lemma {:induction false} SplitJoinListable(values: seq<string>)
    requires Listable(values)
    ensures SplitCidrs(JoinCidrs(values)) == values
  {
    if |values| == 1 {
      SplitLast(values[0]);
    } else if |values| > 1 {
      SplitOne(values[0], JoinCidrs(values[1..]));
      SplitJoinListable(values[1..]);
    }
  }

  lemma {:induction false} SplitIsListable(text: string)
    ensures Listable(SplitCidrs(text))
  {
    if text != "" {
      var separator := Find(text, ',');
      if separator < |text| {
        SplitIsListable(text[separator + 1..]);
      }
    }
  }

  ghost predicate AllOneLine(values: seq<string>) {
    forall i | 0 <= i < |values| :: '\n' !in values[i]
  }

  lemma {:induction false} SplitIsOneLine(text: string)
    requires '\n' !in text
    ensures AllOneLine(SplitCidrs(text))
  {
    if text != "" {
      var separator := Find(text, ',');
      if separator < |text| {
        SplitIsOneLine(text[separator + 1..]);
      }
    }
  }

  lemma {:induction false} JoinIsOneLine(values: seq<string>)
    requires AllOneLine(values)
    ensures '\n' !in JoinCidrs(values)
  {
    if |values| > 1 {
      JoinIsOneLine(values[1..]);
    }
  }

  // ----- key=value lines

  type Values = map<string, string>

  /** unordered_map::emplace: the first value of a key stays. */
  function Emplace(values: Values, key: string, value: string): Values {
    if key in values then values else values[key := value]
  }

  /** unordered_map::operator[] on a map that is not used again. */
  function Get(values: Values, key: string): string {
    if key in values then values[key] else ""
  }

  function ParseLines(text: string, values: Values): Option<Values>
    decreases |text|
  {
    if text == "" then Some(values)
    else
      var end := Find(text, '\n');
      var line := text[..end];
      var separator := Find(line, '=');
      if separator == |line| then None
      else ParseLines(AfterLine(text, end), Emplace(values, line[..separator], line[separator + 1..]))
  }

  method ReadLines(text: string) returns (parsed: Option<Values>)
    ensures parsed == ParseLines(text, map[])
  {
    var values: Values := map[];
    var rest := text;
    while rest != ""
      invariant ParseLines(rest, values) == ParseLines(text, map[])
      decreases |rest|
    {
      var end := Find(rest, '\n');
      var line := rest[..end];
      var separator := Find(line, '=');
      if separator == |line| {
        return None;
      }
      values := Emplace(values, line[..separator], line[separator + 1..]);
      rest := AfterLine(rest, end);
    }
    return Some(values);
  }

  /** static_cast<pid_t>: 32-bit two's complement. */
  function ToPid(n: int): int {
    (n + 0x8000_0000) % 0x1_0000_0000 - 0x8000_0000
  }

  const MAX_LONG_LONG := 0x7fff_ffff_ffff_ffff

  function ParseInteger(text: string): Option<int> {
    var n := ReadInt(text);
    if n.Some? && -MAX_LONG_LONG - 1 <= n.value <= MAX_LONG_LONG then n else None
  }

  function StateFailure(message: string): Result<RuntimeState> {
    Failure(Error(StateError, message))
  }

  function FromValues(values: Values): Result<RuntimeState> {
    var pid := ParseInteger(Get(values, "pid"));
    var ticks := ParseInteger(Get(values, "start_ticks"));
    if pid.None? || ticks.None? || pid.value <= 0 || ticks.value <= 0 then
      StateFailure("invalid runtime process identity")
    else
      var state := RuntimeState(
                     ToPid(pid.value), ticks.value, Get(values, "executable"), Get(values, "core_version"),
                     Get(values, "upstream"), Get(values, "routing_mode"), Get(values, "upstream_address"),
                     SplitCidrs(Get(values, "bypass_cidrs")), Get(values, "phase"));
      if state.executable == "" || state.coreVersion == "" || state.upstream == ""
         || (state.phase != "starting" && state.phase != "running") || state.routingMode == "" then
        StateFailure("runtime state is incomplete")
      else
        Success(state)
  }

  function Decode(text: string): Result<RuntimeState> {
    match ParseLines(text, map[])
    case None => StateFailure("invalid runtime state")
    case Some(values) => FromValues(values)
  }

  function ShowInt(n: int): string {
    if n < 0 then ['-'] + Show(-n) else Show(n)
  }

  function Line(key: string, value: string): string {
    key + ['='] + value + ['\n']
  }

  type Fields = seq<(string, string)>

  function FieldsOf(s: RuntimeState): Fields {
    [("pid", ShowInt(s.pid)), ("start_ticks", ShowInt(s.startTicks)), ("executable", s.executable),
     ("core_version", s.coreVersion), ("upstream", s.upstream), ("routing_mode", s.routingMode),
     ("upstream_address", s.upstreamAddress), ("bypass_cidrs", JoinCidrs(s.bypassCidrs)), ("phase", s.phase)]
  }

  function WriteLines(fields: Fields): string {
    if fields == [] then "" else Line(fields[0].0, fields[0].1) + WriteLines(fields[1..])
  }

  function Encode(s: RuntimeState): string { WriteLines(FieldsOf(s)) }

  // ----- round trip

  ghost predicate OneLine(s: RuntimeState) {
    && '\n' !in s.executable && '\n' !in s.coreVersion && '\n' !in s.upstream && '\n' !in s.routingMode
    && '\n' !in s.upstreamAddress && '\n' !in s.phase
    && AllOneLine(s.bypassCidrs)
  }

  /** The records the state file can hold: complete, free of newlines, listable CIDRs, numbers in range. */
  ghost predicate Savable(s: RuntimeState) {
    && OneLine(s) && Listable(s.bypassCidrs)
    && 0 < s.pid < 0x8000_0000 && 0 < s.startTicks <= MAX_LONG_LONG
    && s.executable != "" && s.coreVersion != "" && s.upstream != "" && s.routingMode != ""
    && (s.phase == "starting" || s.phase == "running")
  }

  /** A CIDR text as a policy holds it: at most 49 characters, none of them a comma or a newline. */
  predicate PlainCidr(t: string) {
    0 < |t| <= 49 && forall i | 0 <= i < |t| :: t[i] != ',' && t[i] != '\n'
  }

  predicate AllPlain(texts: seq<string>) {
    forall i | 0 <= i < |texts| :: PlainCidr(texts[i])
  }

  /** The upstream, the fixed blocks and the interface blocks. */
  const MAXIMUM_CIDRS := 1 + 12 + 1024

  /** A bypass list as a policy yields it. */
  predicate PolicyList(cidrs: seq<string>) { AllPlain(cidrs) && |cidrs| <= MAXIMUM_CIDRS }

  /** The records that start() makes: they fit the state file, and their list is that of a policy. */
  ghost predicate Storable(s: RuntimeState) { Savable(s) && PolicyList(s.bypassCidrs) }

  lemma ParseOneLine(key: string, value: string, rest: string, values: Values)
    requires '=' !in key && '\n' !in key && '\n' !in value
    ensures ParseLines(Line(key, value) + rest, values) == ParseLines(rest, Emplace(values, key, value))
  {
    var line := key + ['='] + value;
    assert Line(key, value) + rest == line + ['\n'] + rest;
    FindSplit(line, '\n', rest);
    FindSplit(key, '=', value);
  }

  function AddAll(fields: Fields, values: Values): Values {
    if fields == [] then values else AddAll(fields[1..], Emplace(values, fields[0].0, fields[0].1))
  }

  ghost predicate OneLineFields(fields: Fields) {
    forall i | 0 <= i < |fields| :: '=' !in fields[i].0 && '\n' !in fields[i].0 && '\n' !in fields[i].1
  }

  lemma {:induction false} ParseWritten(fields: Fields, values: Values)
    requires OneLineFields(fields)
    ensures ParseLines(WriteLines(fields), values) == Some(AddAll(fields, values))
  {
    if fields != [] {
      ParseOneLine(fields[0].0, fields[0].1, WriteLines(fields[1..]), values);
      ParseWritten(fields[1..], Emplace(values, fields[0].0, fields[0].1));
    }
  }

  ghost predicate OneLineValues(values: Values) {
    forall k | k in values :: '\n' !in values[k]
  }

  lemma {:induction false} ParsedValuesAreOneLine(text: string, values: Values)
    requires OneLineValues(values)
    ensures var parsed := ParseLines(text, values); parsed.Some? ==> OneLineValues(parsed.value)
    decreases |text|
  {
    if text != "" {
      var end := Find(text, '\n');
      var line := text[..end];
      var separator := Find(line, '=');
      if separator < |line| {
        ParsedValuesAreOneLine(AfterLine(text, end), Emplace(values, line[..separator], line[separator + 1..]));
      }
    }
  }

  lemma ShowIntHasNoNewline(n: int)
    ensures '\n' !in ShowInt(n)
  {
    var magnitude := Show(if n < 0 then -n else n);
    assert forall i | 0 <= i < |magnitude| :: IsDigit(magnitude[i]);
  }

  lemma EncodedValues(s: RuntimeState) returns (values: Values)
    requires OneLine(s)
    ensures ParseLines(Encode(s), map[]) == Some(values)
    ensures Get(values, "pid") == ShowInt(s.pid) && Get(values, "start_ticks") == ShowInt(s.startTicks)
    ensures Get(values, "executable") == s.executable && Get(values, "core_version") == s.coreVersion
    ensures Get(values, "upstream") == s.upstream && Get(values, "routing_mode") == s.routingMode
    ensures Get(values, "upstream_address") == s.upstreamAddress && Get(values, "phase") == s.phase
    ensures Get(values, "bypass_cidrs") == JoinCidrs(s.bypassCidrs)
  {
    FieldsAreOneLine(s);
    values := FieldValues(FieldsOf(s));
    KeysDiffer(s);
    LookedUp(FieldsOf(s), 0);
    LookedUp(FieldsOf(s), 1);
    LookedUp(FieldsOf(s), 2);
    LookedUp(FieldsOf(s), 3);
    LookedUp(FieldsOf(s), 4);
    LookedUp(FieldsOf(s), 5);
    LookedUp(FieldsOf(s), 6);
    LookedUp(FieldsOf(s), 7);
    LookedUp(FieldsOf(s), 8);
    ParseWritten(FieldsOf(s), map[]);
  }

  ghost function FieldValues(fields: Fields): Values { AddAll(fields, map[]) }

  lemma LookedUp(fields: Fields, i: nat)
    requires i < |fields| && DistinctKeys(fields)
    ensures Get(FieldValues(fields), fields[i].0) == fields[i].1
  {
    AddedValue(fields, map[], i);
  }

  lemma FieldsAreOneLine(s: RuntimeState)
    requires OneLine(s)
    ensures OneLineFields(FieldsOf(s))
  {
    KeysHaveNoSeparator(s);
    ValuesAreOneLine(s);
  }

  lemma KeysHaveNoSeparator(s: RuntimeState)
    ensures forall i | 0 <= i < 9 :: '=' !in FieldsOf(s)[i].0 && '\n' !in FieldsOf(s)[i].0
  {
  }

  lemma ValuesAreOneLine(s: RuntimeState)
    requires OneLine(s)
    ensures forall i | 0 <= i < 9 :: '\n' !in FieldsOf(s)[i].1
  {
    ShowIntHasNoNewline(s.pid);
    ShowIntHasNoNewline(s.startTicks);
    JoinIsOneLine(s.bypassCidrs);
  }

  ghost predicate DistinctKeys(fields: Fields) {
    forall i, j | 0 <= i < j < |fields| :: fields[i].0 != fields[j].0
  }

  lemma KeysDiffer(s: RuntimeState)
    ensures DistinctKeys(FieldsOf(s))
  {
    assert "core_version"[0] != "routing_mode"[0] && "core_version"[0] != "bypass_cidrs"[0];
    assert "routing_mode"[0] != "bypass_cidrs"[0];
  }

  lemma {:induction false} AddedValue(fields: Fields, values: Values, i: nat)
    requires i < |fields| && DistinctKeys(fields) && fields[i].0 !in values
    ensures Get(AddAll(fields, values), fields[i].0) == fields[i].1
  {
    var rest, more := fields[1..], Emplace(values, fields[0].0, fields[0].1);
    if i == 0 {
      AddedKeyStays(rest, more, fields[0].0);
    } else {
      assert rest[i - 1] == fields[i];
      AddedValue(rest, more, i - 1);
    }
  }

  lemma {:induction false} AddedKeyStays(fields: Fields, values: Values, key: string)
    requires key in values
    ensures key in AddAll(fields, values) && AddAll(fields, values)[key] == values[key]
  {
    if fields != [] {
      AddedKeyStays(fields[1..], Emplace(values, fields[0].0, fields[0].1), key);
    }
  }

  /** load(save(s)) returns s exactly for the savable records. */
  lemma LoadInvertsSave(s: RuntimeState)
    ensures Decode(Encode(s)) == Success(s) <==> Savable(s)
  {
    DecodedIsOneLine(Encode(s));
    if OneLine(s) {
      var values := EncodedValues(s);
      SplitJoin(s.bypassCidrs);
      IntegerRoundTrip(s.pid);
      IntegerRoundTrip(s.startTicks);
      FromFieldValues(s, values, ParseInteger(ShowInt(s.pid)), ParseInteger(ShowInt(s.startTicks)));
      assert Decode(Encode(s)) == FromValues(values);
    }
  }

  lemma IntegerRoundTrip(n: int)
    ensures ParseInteger(ShowInt(n)) == if -MAX_LONG_LONG - 1 <= n <= MAX_LONG_LONG then Some(n) else None
  {
    SignedShowIsSigned(n);
  }

  /** What the loader makes of a map that holds the fields of s. */
  lemma FromFieldValues(s: RuntimeState, values: Values, pid: Option<int>, ticks: Option<int>)
    requires ParseInteger(Get(values, "pid")) == pid && ParseInteger(Get(values, "start_ticks")) == ticks
    requires pid == if -MAX_LONG_LONG - 1 <= s.pid <= MAX_LONG_LONG then Some(s.pid) else None
    requires ticks == if -MAX_LONG_LONG - 1 <= s.startTicks <= MAX_LONG_LONG then Some(s.startTicks) else None
    requires Get(values, "executable") == s.executable && Get(values, "core_version") == s.coreVersion
    requires Get(values, "upstream") == s.upstream && Get(values, "routing_mode") == s.routingMode
    requires Get(values, "upstream_address") == s.upstreamAddress && Get(values, "phase") == s.phase
    requires SplitCidrs(Get(values, "bypass_cidrs")) == s.bypassCidrs <==> Listable(s.bypassCidrs)
    requires OneLine(s)
    ensures FromValues(values) == Success(s) <==> Savable(s)
  {
  }

  lemma SignedShowIsSigned(n: int)
    ensures ReadInt(ShowInt(n)) == Some(n)
  {
    if n < 0 {
      NegativeShow(n);
    } else {
      PositiveShow(n);
    }
  }

  lemma NegativeShow(n: int)
    requires n < 0
    ensures ReadInt(ShowInt(n)) == Some(n)
  {
    var m: nat := -n;
    assert ShowInt(n) == ['-'] + Show(m);
    NegativeReads(m);
  }

  lemma PositiveShow(n: nat)
    ensures ReadInt(ShowInt(n)) == Some(n)
  {
    ReadIntShow(n);
  }

  lemma NegativeReads(n: nat)
    ensures ReadInt(['-'] + Show(n)) == Some(-(n as int))
  {
    var digits := Show(n);
    ReadShow(n);
    ReadIntNegative(digits);
  }

  lemma ReadIntNegative(digits: string)
    ensures ReadInt(['-'] + digits) ==
      if ReadNat(digits).None? then None else Some(-(ReadNat(digits).value as int))
  {
    assert (['-'] + digits)[1..] == digits;
  }

  lemma DecodedIsOneLine(text: string)
    ensures var r := Decode(text); r.Success? ==> OneLine(r.value) && Listable(r.value.bypassCidrs)
  {
    ParsedValuesAreOneLine(text, map[]);
    var parsed := ParseLines(text, map[]);
    if parsed.Some? {
      SplitIsListable(Get(parsed.value, "bypass_cidrs"));
      SplitIsOneLine(Get(parsed.value, "bypass_cidrs"));
    }
  }

  // ----- the store

  function LoadFrom(file: Option<string>): Result<RuntimeState> {
    match file
    case None => StateFailure("runtime state is absent")
    case Some(text) => Decode(text)
  }

  class RuntimeStateStore {
    var file: Option<string>

    /** `readable` says whether an existing file can be opened and read; load() does not tell that from an absent one. */
    method Load(readable: bool) returns (r: Result<RuntimeState>)
      ensures r == LoadFrom(if readable then file else None)
    {
      if file.None? || !readable {
        return StateFailure("runtime state is absent");
      }
      var values := ReadLines(file.value);
      if values.None? {
        return StateFailure("invalid runtime state");
      }
      r := FromValues(values.value);
    }

    /** `written` is the outcome of the directory check and the atomic replacement. */
    method Save(state: RuntimeState, written: bool) returns (r: Result<()>)
      modifies this
      ensures r.Success? <==> written
      ensures file == if written then Some(Encode(state)) else old(file)
      ensures written && Savable(state) ==> LoadFrom(file) == Success(state)
      ensures !written ==> LoadFrom(file) == old(LoadFrom(file))
    {
      LoadInvertsSave(state);
      var cidrs := WriteCidrs(state.bypassCidrs);
      var content := WriteLines(FieldsOf(state)[7 := ("bypass_cidrs", cidrs)]);
      assert FieldsOf(state)[7 := ("bypass_cidrs", cidrs)] == FieldsOf(state);
      if !written {
        return Failure(Error(Generic, "rename"));
      }
      file := Some(content);
      r := Success(());
    }

    /** A missing file is not an error; `removable` says whether an existing one could be removed. */
    method Clear(removable: bool) returns (r: Result<()>)
      modifies this
      ensures r.Success? <==> old(file).None? || removable
      ensures file == if r.Success? then None else old(file)
      ensures r.Success? ==> LoadFrom(file).Failure?
    {
      if file.Some? && !removable {
        return Failure(Error(StateError, "remove"));
      }
      file := None;
      r := Success(());
    }
  }
}
