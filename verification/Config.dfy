/** The configured upstream: its URI and its configuration file. */
module Config {
  import opened Common
  import opened Text

  datatype Upstream = Upstream(protocol: string, host: string, port: nat)

  function Invalid<T>(message: string): Result<T> { Failure(Error(InvalidConfiguration, message)) }

  predicate IsValidHost(host: string) {
    && host != "" && |host| <= 253
    && '\r' !in host && '\n' !in host && '\t' !in host && ' ' !in host
    && host != "." && '/' !in host
  }

  function ParsePort(text: string): Option<nat> {
    var n := ReadNat(text);
    if n.Some? && 0 < n.value <= 65535 then n else None
  }

  function ValidateUpstream(u: Upstream): Result<Upstream> {
    if u.protocol != "socks5" then Invalid("only socks5 upstream is supported")
    else if !IsValidHost(u.host) then Invalid("host is empty or contains invalid characters")
    else if u.port == 0 then Invalid("port must be 1..65535")
    else Success(u)
  }

  /** A valid upstream; the port field has sixteen bits. */
  predicate ValidUpstream(u: Upstream) { ValidateUpstream(u).Success? && u.port <= 65535 }

  /** Index of the first "://", or |s|. */
  function FindScheme(s: string): (i: nat)
    ensures i <= |s| && (i < |s| ==> i + 3 <= |s|)
  {
    if |s| < 3 then |s|
    else if s[0] == ':' && s[1] == '/' && s[2] == '/' then 0
    else 1 + FindScheme(s[1..])
  }

  /** Host and port text of the part after the scheme. */
  function SplitAuthority(authority: string): Result<(string, string)> {
    if authority == "" then Invalid("upstream host is empty")
    else if authority[0] == '[' then
      var closing := Find(authority, ']');
      if closing == |authority| || closing + 2 > |authority| || authority[closing + 1] != ':' then
        Invalid("invalid bracketed IPv6 upstream")
      else
        Success((authority[1..closing], authority[closing + 2..]))
    else
      var separator := FindLast(authority, ':');
      if separator == |authority| then Invalid("upstream port is missing")
      else if ':' in authority[..separator] then Invalid("IPv6 upstream addresses must be enclosed in brackets")
      else Success((authority[..separator], authority[separator + 1..]))
  }

  function ParseUpstreamUri(uri: string): Result<Upstream> {
    var schemeEnd := FindScheme(uri);
    if schemeEnd == |uri| then Invalid("upstream must be protocol://host:port")
    else
      match SplitAuthority(uri[schemeEnd + 3..])
      case Failure(e) => Failure(e)
      case Success((host, portText)) =>
        var port := ParsePort(portText);
        if port.None? then Invalid("port must be 1..65535")
        else ValidateUpstream(Upstream(uri[..schemeEnd], host, port.value))
  }

  function FormatAuthority(u: Upstream): string {
    (if ':' in u.host then ['['] + u.host + [']'] else u.host) + [':'] + Show(u.port)
  }

  function FormatUpstreamUri(u: Upstream): string {
    u.protocol + [':', '/', '/'] + FormatAuthority(u)
  }

  // ----- URI round trip

  lemma SchemeIsFound(rest: string)
    ensures FindScheme("socks5" + [':', '/', '/'] + rest) == 6
    ensures ("socks5" + [':', '/', '/'] + rest)[..6] == "socks5"
    ensures ("socks5" + [':', '/', '/'] + rest)[9..] == rest
  {
    var s := "socks5" + [':', '/', '/'] + rest;
    assert FindScheme(s[6..]) == 0;
    assert s[5..][1..] == s[6..] && s[4..][1..] == s[5..] && s[3..][1..] == s[4..];
    assert s[2..][1..] == s[3..] && s[1..][1..] == s[2..];
    assert FindScheme(s[5..]) == 1;
    assert FindScheme(s[4..]) == 2;
    assert FindScheme(s[3..]) == 3;
    assert FindScheme(s[2..]) == 4;
    assert FindScheme(s[1..]) == 5;
  }

  lemma PortReadsBack(port: nat)
    requires 0 < port <= 65535
    ensures ParsePort(Show(port)) == Some(port) && ':' !in Show(port)
  {
    ReadShow(port);
    assert forall i | 0 <= i < |Show(port)| :: IsDigit(Show(port)[i]);
  }

  /** A host with colons is read back when it has no closing bracket, and otherwise cut there. */
  lemma BracketedSplit(host: string, digits: string)
    ensures ']' !in host ==>
      SplitAuthority(['['] + host + [']'] + [':'] + digits) == Success((host, digits))
    ensures ']' in host ==> var r := SplitAuthority(['['] + host + [']'] + [':'] + digits);
      r.Success? ==> |r.value.0| < |host|
  {
    var authority := ['['] + host + [']'] + [':'] + digits;
    if ']' !in host {
      assert authority == (['['] + host) + [']'] + ([':'] + digits);
      FindSplit(['['] + host, ']', [':'] + digits);
      assert authority[1..|host| + 1] == host && authority[|host| + 3..] == digits;
    } else {
      var k := Find(host, ']');
      var head, tail := host[..k], host[k + 1..] + [']'] + [':'] + digits;
      assert authority == (['['] + head) + [']'] + tail;
      assert ']' !in ['['] + head;
      FindSplit(['['] + head, ']', tail);
    }
  }

  /** A host without colons is read back when it does not start like a bracketed one. */
  lemma PlainSplit(host: string, digits: string)
    requires host != "" && ':' !in host && ':' !in digits
    ensures var r := SplitAuthority(host + [':'] + digits);
      if host[0] == '[' then r.Success? ==> r.value.0 != host
      else r == Success((host, digits))
  {
    FindLastSplit(host, ':', digits);
    assert (host + [':'] + digits)[0] == host[0];
  }

  /** For a valid upstream: exactly these hosts survive format and parse. */
  lemma ParseInvertsFormat(u: Upstream)
    requires ValidUpstream(u)
    ensures ParseUpstreamUri(FormatUpstreamUri(u)) == Success(u) <==>
      (':' in u.host && ']' !in u.host) || (':' !in u.host && u.host[0] != '[')
  {
    SchemeIsFound(FormatAuthority(u));
    PortReadsBack(u.port);
    if ':' in u.host {
      BracketedSplit(u.host, Show(u.port));
    } else {
      PlainSplit(u.host, Show(u.port));
    }
    SplitDecides(u, FormatAuthority(u));
  }

  lemma SplitDecides(u: Upstream, authority: string)
    requires ValidUpstream(u) && ParsePort(Show(u.port)) == Some(u.port)
    requires FindScheme("socks5" + [':', '/', '/'] + authority) == 6
    requires ("socks5" + [':', '/', '/'] + authority)[9..] == authority
    requires ("socks5" + [':', '/', '/'] + authority)[..6] == "socks5"
    ensures var r, s := ParseUpstreamUri("socks5" + [':', '/', '/'] + authority), SplitAuthority(authority);
      && (s == Success((u.host, Show(u.port))) ==> r == Success(u))
      && (r == Success(u) ==> s.Success? && s.value.0 == u.host)
  {
  }

  // ----- the configuration file

  predicate IsSpace(c: char) { c == ' ' || '\t' <= c <= '\r' }

  function TrimLeft(s: string): (r: string)
    ensures r == "" || !IsSpace(r[0])
  {
    if s != "" && IsSpace(s[0]) then TrimLeft(s[1..]) else s
  }

  function TrimRight(s: string): (r: string)
    ensures r == "" || !IsSpace(r[|r| - 1])
    ensures r <= s
  {
    if s != "" && IsSpace(s[|s| - 1]) then TrimRight(s[..|s| - 1]) else s
  }

  function Trim(s: string): string { TrimRight(TrimLeft(s)) }

  /** The keys seen so far with their last values. */
  datatype Seen = Seen(protocol: Option<string>, host: Option<string>, port: Option<nat>)

  function ReadLine(raw: string, seen: Seen): Result<Seen> {
    var line := Trim(raw);
    if line == "" || line[0] == '#' then Success(seen)
    else
      var separator := Find(line, '=');
      if separator == |line| then Invalid("invalid config line")
      else
        var key, value := Trim(line[..separator]), Trim(line[separator + 1..]);
        if key == "protocol" then Success(seen.(protocol := Some(value)))
        else if key == "host" then Success(seen.(host := Some(value)))
        else if key == "port" then
          var port := ParsePort(value);
          if port.None? then Invalid("port must be 1..65535") else Success(seen.(port := port))
        else Invalid("unknown config key: " + key)
  }

  function ReadLines(text: string, seen: Seen): Result<Seen>
    decreases |text|
  {
    if text == "" then Success(seen)
    else
      var end := Find(text, '\n');
      match ReadLine(text[..end], seen)
      case Failure(e) => Failure(e)
      case Success(next) => ReadLines(AfterLine(text, end), next)
  }

  function FromSeen(seen: Seen): Result<Upstream> {
    if seen.protocol.None? || seen.host.None? || seen.port.None? then
      Invalid("config must contain protocol, host, and port")
    else
      ValidateUpstream(Upstream(seen.protocol.value, seen.host.value, seen.port.value))
  }

  function LoadText(text: string): Result<Upstream> {
    match ReadLines(text, Seen(None, None, None))
    case Failure(e) => Failure(e)
    case Success(seen) => FromSeen(seen)
  }

  function KeyLine(key: string, value: string, rest: string): string {
    key + ['='] + value + ['\n'] + rest
  }

  function PortText(u: Upstream): string { KeyLine("port", Show(u.port), "") }

  function HostText(u: Upstream): string { KeyLine("host", u.host, PortText(u)) }

  function SaveText(u: Upstream): string { KeyLine("protocol", u.protocol, HostText(u)) }

  class ConfigManager {
    var file: Option<string>

    method Load() returns (r: Result<Upstream>)
      ensures r == if file.None? then Invalid("cannot read config") else LoadText(file.value)
    {
      if file.None? {
        return Invalid("cannot read config");
      }
      var seen := Seen(None, None, None);
      var rest := file.value;
      while rest != ""
        invariant ReadLines(rest, seen) == ReadLines(file.value, Seen(None, None, None))
        decreases |rest|
      {
        var end := Find(rest, '\n');
        var next := ReadLine(rest[..end], seen);
        if next.Failure? {
          return Failure(next.error);
        }
        seen := next.value;
        rest := AfterLine(rest, end);
      }
      r := FromSeen(seen);
    }

    /** `written` is the outcome of the directory check and the atomic replacement. */
    method Save(u: Upstream, written: bool) returns (r: Result<()>)
      modifies this
      ensures r.Success? <==> ValidateUpstream(u).Success? && written
      ensures file == if r.Success? then Some(SaveText(u)) else old(file)
    {
      if ValidateUpstream(u).Failure? {
        return Failure(ValidateUpstream(u).error);
      }
      if !written {
        return Failure(Error(Generic, "rename"));
      }
      file := Some(SaveText(u));
      r := Success(());
    }
  }

  // ----- file round trip

  lemma {:induction false} TrimRightKeepsHead(a: string, b: string)
    requires a != "" && !IsSpace(a[|a| - 1])
    ensures TrimRight(a + b) == a + TrimRight(b)
  {
    if b == "" {
      assert a + b == a;
    } else if IsSpace(b[|b| - 1]) {
      assert (a + b)[..|a + b| - 1] == a + b[..|b| - 1];
      TrimRightKeepsHead(a, b[..|b| - 1]);
    }
  }

  lemma {:induction false} TrimRightTwice(s: string)
    ensures TrimLeft(TrimRight(s)) == Trim(s)
  {
    if s == "" {
    } else if !IsSpace(s[0]) {
      assert s == [s[0]] + s[1..];
      TrimRightKeepsHead([s[0]], s[1..]);
    } else {
      TrimRightTwice(s[1..]);
      TrimRightOfSpaced(s);
    }
  }

  lemma {:induction false} TrimRightOfSpaced(s: string)
    requires s != "" && IsSpace(s[0])
    ensures TrimLeft(TrimRight(s)) == TrimLeft(TrimRight(s[1..]))
    decreases |s|
  {
    if |s| > 1 && IsSpace(s[|s| - 1]) {
      assert s[1..][..|s| - 2] == s[..|s| - 1][1..];
      TrimRightOfSpaced(s[..|s| - 1]);
    }
  }

  /** Reading "key=value" with a plain key gives the key and the trimmed value. */
  lemma ReadKeyValue(key: string, value: string, seen: Seen)
    requires key == "protocol" || key == "host" || key == "port"
    ensures ReadLine(key + ['='] + value, seen) ==
      if key == "protocol" then Success(seen.(protocol := Some(Trim(value))))
      else if key == "host" then Success(seen.(host := Some(Trim(value))))
      else if ParsePort(Trim(value)).None? then Invalid("port must be 1..65535")
      else Success(seen.(port := ParsePort(Trim(value))))
  {
    var raw := key + ['='] + value;
    assert TrimLeft(raw) == raw;
    TrimRightKeepsHead(key + ['='], value);
    var kept := TrimRight(value);
    assert Trim(raw) == key + ['='] + kept;
    FindSplit(key, '=', kept);
    assert Trim(key) == key;
    TrimRightTwice(value);
    assert Trim(kept) == TrimRight(TrimLeft(kept));
    TrimIsTrimmed(value);
  }

  lemma TrimIsTrimmed(s: string)
    ensures TrimRight(Trim(s)) == Trim(s)
  {
  }

  lemma ReadFirstLine(line: string, rest: string, seen: Seen)
    requires '\n' !in line && ReadLine(line, seen).Success?
    ensures ReadLines(line + ['\n'] + rest, seen) == ReadLines(rest, ReadLine(line, seen).value)
  {
    FindSplit(line, '\n', rest);
  }

  /** The port line holds no space, so trimming leaves it alone. */
  lemma DigitsAreTrimmed(n: nat)
    ensures Trim(Show(n)) == Show(n) && '\n' !in Show(n)
  {
    assert forall i | 0 <= i < |Show(n)| :: IsDigit(Show(n)[i]);
  }

  lemma ReadPortText(u: Upstream, seen: Seen)
    requires ValidUpstream(u)
    ensures ReadLines(PortText(u), seen) == Success(seen.(port := Some(u.port)))
  {
    DigitsAreTrimmed(u.port);
    PortReadsBack(u.port);
    ReadKeyValue("port", Show(u.port), seen);
    ReadFirstLine("port" + ['='] + Show(u.port), "", seen);
  }

  lemma ReadHostText(u: Upstream, seen: Seen)
    requires ValidUpstream(u)
    ensures ReadLines(HostText(u), seen) == Success(seen.(host := Some(Trim(u.host)), port := Some(u.port)))
  {
    ReadKeyValue("host", u.host, seen);
    ReadFirstLine("host" + ['='] + u.host, PortText(u), seen);
    ReadPortText(u, seen.(host := Some(Trim(u.host))));
  }

  lemma ReadProtocolText(u: Upstream, protocol: string)
    requires ValidUpstream(u) && Trim(protocol) == protocol && '\n' !in protocol
    ensures ReadLines(KeyLine("protocol", protocol, HostText(u)), Seen(None, None, None)) ==
      Success(Seen(Some(protocol), Some(Trim(u.host)), Some(u.port)))
  {
    var none := Seen(None, None, None);
    ReadKeyValue("protocol", protocol, none);
    ReadFirstLine("protocol" + ['='] + protocol, HostText(u), none);
    ReadHostText(u, none.(protocol := Some(protocol)));
  }

  lemma ReadSaveText(u: Upstream)
    requires ValidUpstream(u)
    ensures ReadLines(SaveText(u), Seen(None, None, None)) ==
      Success(Seen(Some("socks5"), Some(Trim(u.host)), Some(u.port)))
  {
    assert Trim("socks5") == "socks5";
    ReadProtocolText(u, "socks5");
  }

  /** Loading what was saved trims the host and validates again. */
  lemma LoadOfSaved(u: Upstream)
    requires ValidUpstream(u)
    ensures LoadText(SaveText(u)) == ValidateUpstream(u.(host := Trim(u.host)))
  {
    ReadSaveText(u);
  }

  predicate IsVerticalSpace(c: char) { c == '\U{000B}' || c == '\U{000C}' }

  lemma TrimmedIffEndsAre(s: string)
    requires s != ""
    ensures Trim(s) == s <==> !IsSpace(s[0]) && !IsSpace(s[|s| - 1])
  {
    if IsSpace(s[0]) {
      TrimLeftShortens(s);
    }
  }

  lemma {:induction false} TrimLeftShortens(s: string)
    requires s != "" && IsSpace(s[0])
    ensures |TrimLeft(s)| < |s|
  {
    if |s| > 1 && IsSpace(s[1]) {
      TrimLeftShortens(s[1..]);
    }
  }

  /** load(save(u)) returns u exactly when the host neither starts nor ends with a vertical tab or form feed. */
  lemma LoadInvertsSave(u: Upstream)
    requires ValidUpstream(u)
    ensures LoadText(SaveText(u)) == Success(u) <==>
      !IsVerticalSpace(u.host[0]) && !IsVerticalSpace(u.host[|u.host| - 1])
  {
    LoadOfSaved(u);
    SavedHostDecides(u, LoadText(SaveText(u)), Trim(u.host));
    HostTrimmedIff(u.host);
  }

  lemma HostTrimmedIff(host: string)
    requires host != "" && IsValidHost(host)
    ensures Trim(host) == host <==> !IsVerticalSpace(host[0]) && !IsVerticalSpace(host[|host| - 1])
  {
    TrimmedIffEndsAre(host);
    HostSpacesAreVertical(host, 0);
    HostSpacesAreVertical(host, |host| - 1);
  }

  lemma HostSpacesAreVertical(host: string, i: nat)
    requires IsValidHost(host) && i < |host|
    ensures IsSpace(host[i]) <==> IsVerticalSpace(host[i])
  {
    assert host[i] in host;
  }

  lemma SavedHostDecides(u: Upstream, loaded: Result<Upstream>, host: string)
    requires ValidUpstream(u) && loaded == ValidateUpstream(u.(host := host))
    ensures loaded == Success(u) <==> host == u.host
  {
  }

  /** The URI of a valid upstream is one non-empty line. */
  lemma UriIsOneLine(u: Upstream)
    requires ValidUpstream(u)
    ensures FormatUpstreamUri(u) != "" && '\n' !in FormatUpstreamUri(u)
  {
    DigitsAreTrimmed(u.port);
  }
}
