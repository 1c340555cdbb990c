/**
 * The address helpers of the Network class: splitting "host", "host:port",
 * "[v6]" and "[v6]:port", the "::ffff:" IPv4-mapped prefix, and the choice
 * among resolver results. The resolver itself is outside the model: its two
 * per-family result lists (the answers for UnmapIPv4(host)) are inputs.
 */
module Network {
  import opened Wrappers
  import opened Text

  /** Network::DefaultPort. */
  const DefaultPort: nat := 1024

  /** The prefix of an IPv4-mapped IPv6 address. */
  const MappedPrefix: string := "::ffff:"

  /** The pair splitAddress returns. */
  datatype Endpoint = Endpoint(host: string, port: nat)

  /** Network::splitAddress. */
  function SplitAddress(address: string): (r: Endpoint)
    ensures r.port < 0x1_0000
  {
    if IndexOf(address, '[') == Some(0) then
      match IndexOf(address, ']')
      case None => Endpoint(address, DefaultPort)
      case Some(close) =>
        var rest := address[close + 1..];
        if LastIndexOf(rest, ':') == Some(0) then Endpoint(address[1..close], StreamUShort(rest[1..], DefaultPort))
        else Endpoint(address[1..close], DefaultPort)
    else
      match LastIndexOf(address, ':')
      case None => Endpoint(address, DefaultPort)
      case Some(pos) =>
        if IndexOf(address, ':') == Some(pos) then Endpoint(address[..pos], StreamUShort(address[pos + 1..], DefaultPort))
        else Endpoint(address, DefaultPort)
  }

  /** Network::mapIPv4. */
  function MapIPv4(address: string): (r: string)
    ensures MappedPrefix <= r && r[|MappedPrefix|..] == address
  {
    MappedPrefix + address
  }

  /** Network::unmapIPv4: strips "::ffff:" when what follows looks like a dotted IPv4 address. */
  function UnmapIPv4(address: string): (r: string)
    ensures r == address || (address == MapIPv4(r) && ':' !in r && '.' in r)
  {
    if MappedPrefix <= address then
      var ipv4 := address[|MappedPrefix|..];
      if ':' !in ipv4 && '.' in ipv4 then ipv4 else address
    else address
  }

  /** Network::resolveHostAddresses: every IPv6 answer, then every IPv4 answer. */
  function ResolveHostAddresses(ipv4: seq<string>, ipv6: seq<string>): (r: seq<string>)
    ensures |r| == |ipv6| + |ipv4|
    ensures r[..|ipv6|] == ipv6 && r[|ipv6|..] == ipv4
  {
    ipv6 + ipv4
  }

  /** The first element of a result list, or "" when there is none. */
  function FirstOrEmpty(addresses: seq<string>): (r: string)
    ensures addresses == [] ==> r == ""
    ensures addresses != [] ==> r == addresses[0]
  {
    if |addresses| > 0 then addresses[0] else ""
  }

  /** Network::resolveHostIPv4. */
  function ResolveHostIPv4(ipv4: seq<string>): (r: string)
    ensures ipv4 != [] ==> r == ipv4[0]
    ensures ipv4 == [] ==> r == ""
  {
    FirstOrEmpty(ipv4)
  }

  /** Network::resolveHostIPv6. */
  function ResolveHostIPv6(ipv6: seq<string>): (r: string)
    ensures ipv6 != [] ==> r == ipv6[0]
    ensures ipv6 == [] ==> r == ""
  {
    FirstOrEmpty(ipv6)
  }

  /** Network::resolveHost. */
  function ResolveHost(ipv4: seq<string>, ipv6: seq<string>): (r: string)
    ensures ipv6 != [] ==> r == ipv6[0]
    ensures ipv6 == [] && ipv4 != [] ==> r == ipv4[0]
    ensures ipv6 == [] && ipv4 == [] ==> r == ""
  {
    FirstOrEmpty(ResolveHostAddresses(ipv4, ipv6))
  }

  /** In the bracket form the host is exactly the text between '[' and the first ']'. */
  lemma BracketHost(address: string)
    requires |address| > 0 && address[0] == '[' && ']' in address
    ensures "[" + SplitAddress(address).host + "]" <= address
    ensures ']' !in SplitAddress(address).host
  {
    var close := IndexOf(address, ']').value;
    assert IndexOf(address, '[') == Some(0);
    assert "[" + address[1..close] + "]" == address[..close + 1];
  }

  /**
   * In the bracket form the port is read only when the remainder after the
   * first ']' starts with ':' and holds no other ':'; otherwise it is the
   * default port.
   */
  lemma BracketPort(address: string, close: nat)
    requires |address| > 0 && address[0] == '['
    requires close < |address| && address[close] == ']' && ']' !in address[..close]
    ensures var rest := address[close + 1..];
      SplitAddress(address).port
        == if |rest| > 0 && rest[0] == ':' && ':' !in rest[1..] then StreamUShort(rest[1..], DefaultPort) else DefaultPort
  {
    assert IndexOf(address, '[') == Some(0);
    assert IndexOf(address, ']') == Some(close);
    var rest := address[close + 1..];
    if |rest| > 0 && rest[0] == ':' {
      assert rest == [':'] + rest[1..];
    }
  }

  /** A leading '[' without any ']' leaves the whole input as the host. */
  lemma BracketUnclosed(address: string)
    requires |address| > 0 && address[0] == '[' && ']' !in address
    ensures SplitAddress(address) == Endpoint(address, DefaultPort)
  {
    assert IndexOf(address, '[') == Some(0);
  }

  /** Without a leading '[' the string is split at its ':' when it holds exactly one. */
  lemma PlainSplit(address: string, pos: nat)
    requires address == [] || address[0] != '['
    requires pos < |address| && address[pos] == ':' && multiset(address)[':'] == 1
    ensures SplitAddress(address) == Endpoint(address[..pos], StreamUShort(address[pos + 1..], DefaultPort))
  {
    SingleOccurrence(address, ':');
    var x := IndexOf(address, ':').value;
    assert LastIndexOf(address, ':') == Some(x);
    assert x == pos;
    assert IndexOf(address, '[') != Some(0);
  }

  /** Without a leading '[', zero colons or several colons leave the string whole. */
  lemma PlainUnsplit(address: string)
    requires address == [] || address[0] != '['
    requires multiset(address)[':'] != 1
    ensures SplitAddress(address) == Endpoint(address, DefaultPort)
  {
    SingleOccurrence(address, ':');
    assert IndexOf(address, '[') != Some(0);
  }

  /** A printed port is read back whatever the port held before. */
  lemma PortTextValue(port: nat, prior: nat)
    requires port < 0x1_0000 && prior < 0x1_0000
    ensures StreamUShort(Decimal(port), prior) == port
  {
    assert SkipSpace(Decimal(port)) == Decimal(port);
    LeadingDigitsOfDecimal(port, []);
    assert Decimal(port) + [] == Decimal(port);
    DecimalValue(port);
  }

  /** Writing "host:port" and splitting it again gives back the host and the port. */
  lemma SplitRoundTrip(host: string, port: nat)
    requires ':' !in host && (host == [] || host[0] != '[')
    requires port < 0x1_0000
    ensures SplitAddress(host + ":" + Decimal(port)) == Endpoint(host, port)
  {
    var a := host + ":" + Decimal(port);
    assert a[|host|] == ':';
    assert a[..|host|] == host;
    assert a[|host| + 1..] == Decimal(port);
    assert ':' !in Decimal(port);
    assert multiset(a)[':'] == multiset(host)[':'] + multiset(":")[':'] + multiset(Decimal(port))[':'];
    PlainSplit(a, |host|);
    PortTextValue(port, DefaultPort);
  }

  /** "[host]" followed by a remainder splits as the bracket form describes. */
  lemma BracketSplit(host: string, tail: string)
    requires ']' !in host
    ensures SplitAddress("[" + host + "]" + tail)
      == if LastIndexOf(tail, ':') == Some(0) then Endpoint(host, StreamUShort(tail[1..], DefaultPort)) else Endpoint(host, DefaultPort)
  {
    var a := "[" + host + "]" + tail;
    var close := |host| + 1;
    assert a[0] == '[';
    assert IndexOf(a, '[') == Some(0);
    assert a[close] == ']';
    assert a[..close] == "[" + host;
    FirstIndex(a, ']', close);
    assert a[1..close] == host;
    assert a[close + 1..] == tail;
  }

  /** "host:" with nothing after the colon keeps the default port, since the extraction fails before reading. */
  lemma PlainBlankPort(host: string, blank: string)
    requires ':' !in host && (host == [] || host[0] != '[')
    requires forall k :: 0 <= k < |blank| ==> IsSpace(blank[k])
    ensures SplitAddress(host + ":" + blank) == Endpoint(host, DefaultPort)
  {
    var a := host + ":" + blank;
    assert a[|host|] == ':';
    assert a[..|host|] == host;
    assert a[|host| + 1..] == blank;
    assert ':' !in blank;
    assert multiset(a)[':'] == multiset(host)[':'] + multiset(":")[':'] + multiset(blank)[':'];
    PlainSplit(a, |host|);
  }

  /** "[host]:" with nothing after the colon keeps the default port as well. */
  lemma BracketBlankPort(host: string, blank: string)
    requires ']' !in host
    requires forall k :: 0 <= k < |blank| ==> IsSpace(blank[k])
    ensures SplitAddress("[" + host + "]" + ":" + blank) == Endpoint(host, DefaultPort)
  {
    var tail := ":" + blank;
    assert ':' !in blank;
    assert tail[1..] == blank;
    assert LastIndexOf(tail, ':') == Some(0);
    BracketSplit(host, tail);
    assert "[" + host + "]" + ":" + blank == "[" + host + "]" + tail;
  }

  /** Writing "[host]:port" and splitting it again gives back the host and the port. */
  lemma BracketRoundTrip(host: string, port: nat)
    requires ']' !in host
    requires port < 0x1_0000
    ensures SplitAddress("[" + host + "]" + ":" + Decimal(port)) == Endpoint(host, port)
  {
    var tail := ":" + Decimal(port);
    assert ':' !in Decimal(port);
    assert tail[1..] == Decimal(port);
    assert LastIndexOf(tail, ':') == Some(0);
    BracketSplit(host, tail);
    assert "[" + host + "]" + ":" + Decimal(port) == "[" + host + "]" + tail;
    PortTextValue(port, DefaultPort);
  }

  /** "[host]" alone names the host on the default port. */
  lemma BracketDefaultPort(host: string)
    requires ']' !in host
    ensures SplitAddress("[" + host + "]") == Endpoint(host, DefaultPort)
  {
    BracketSplit(host, []);
    assert "[" + host + "]" + [] == "[" + host + "]";
  }

  /** unmapIPv4 changes its argument exactly when it is "::ffff:" followed by colon-free dotted text. */
  lemma UnmapChanges(address: string)
    ensures UnmapIPv4(address) != address
      <==> (MappedPrefix <= address && ':' !in address[|MappedPrefix|..] && '.' in address[|MappedPrefix|..])
  {
  }

  /** Mapping a dotted IPv4 address and unmapping it again gives the address back. */
  lemma MapRoundTrip(address: string)
    requires ':' !in address && '.' in address
    ensures UnmapIPv4(MapIPv4(address)) == address
  {
  }

  /** Mapping something that holds a ':' (an IPv6 literal, say) is not undone by unmapIPv4. */
  lemma MapNotUndone(address: string)
    requires ':' in address
    ensures UnmapIPv4(MapIPv4(address)) == MapIPv4(address)
  {
  }

  /** unmapIPv4 is idempotent. */
  lemma UnmapIdempotent(address: string)
    ensures UnmapIPv4(UnmapIPv4(address)) == UnmapIPv4(address)
  {
    var r := UnmapIPv4(address);
    if r != address {
      assert MappedPrefix[0] == ':';
      assert !(MappedPrefix <= r);
    }
  }

  /** resolveHost answers with the first IPv6 result when there is one, otherwise with the first IPv4 result. */
  lemma ResolvePrefersIPv6(ipv4: seq<string>, ipv6: seq<string>)
    ensures ResolveHost(ipv4, ipv6) == if |ipv6| > 0 then ResolveHostIPv6(ipv6) else ResolveHostIPv4(ipv4)
    ensures ResolveHost(ipv4, ipv6) in ResolveHostAddresses(ipv4, ipv6) || (ipv4 == [] && ipv6 == [])
  {
  }
}
