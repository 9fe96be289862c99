/** The state file: src/state.rs. One line a host: address, time of its last
    answer, rule. */
module StateFile {
  import opened Wrappers
  import opened Subnets
  import opened Text

  datatype Host = Host(rule: string, last: nat)

  type Hosts = map<Ip, Host>

  const U64 := 0x1_0000_0000_0000_0000

  /** What the settings take for a name: letters, digits, `_` and `-`, at most 64. */
  predicate IsName(s: string) {
    0 < |s| <= 64 && forall c :: c in s ==> IsAlnum(c) || c == '_' || c == '-'
  }

  predicate Savable(hosts: Hosts) {
    forall ip :: ip in hosts ==> IsName(hosts[ip].rule) && hosts[ip].last < U64
  }

  function ParseLine(line: string): Option<(Ip, Host)> {
    var f := Words(line);
    if |f| < 3 then None
    else
      var ip, last := ParseQuad(f[0]), ParseUnsigned(f[1], U64);
      if ip.Some? && last.Some? then Some((ip.value, Host(f[2], last.value))) else None
  }

  /** The map of the lines that are hosts, the later line winning. */
  function Collect(lines: seq<string>): Hosts {
    if lines == [] then map[]
    else
      var n := |lines| - 1;
      var e := ParseLine(lines[n]);
      if e.Some? then Collect(lines[..n])[e.value.0 := e.value.1] else Collect(lines[..n])
  }

  function Parse(text: string): Hosts {
    Collect(Lines(text))
  }

  /** A line is a host's when its first word is an address in dots, its second a
      number of 64 bits, and there is a third, which is the rule. */
  lemma LineMeans(line: string, ip: Ip, h: Host)
    ensures ParseLine(line) == Some((ip, h)) <==>
            var f := Words(line);
            |f| >= 3 && f[0] == Quad(ip) && ParseUnsigned(f[1], 0x1_0000_0000_0000_0000) == Some(h.last) && f[2] == h.rule
  {
    QuadRoundTrip(ip);
    var f := Words(line);
    if |f| >= 3 && ParseQuad(f[0]) == Some(ip) {
      QuadIsOnlyForm(f[0]);
    }
  }

  lemma NameMeans(s: string)
    ensures IsName(s) <==>
            1 <= |s| <= 64
            && forall i :: 0 <= i < |s| ==> '0' <= s[i] <= '9' || 'a' <= s[i] <= 'z' || 'A' <= s[i] <= 'Z' || s[i] == '_' || s[i] == '-'
  {
    assert forall i :: 0 <= i < |s| ==> s[i] in s;
  }

  /** Line `i` is the last of this address. */
  predicate LastOf(lines: seq<string>, i: nat, ip: Ip) {
    i < |lines| && LineOf(lines[i], ip) && forall j :: i < j < |lines| ==> !LineOf(lines[j], ip)
  }

  predicate LineOf(line: string, ip: Ip) {
    ParseLine(line).Some? && ParseLine(line).value.0 == ip
  }

  /** The last line of an address is what is known of it. */
  lemma {:induction false} CollectedExactly(lines: seq<string>, ip: Ip)
    ensures ip in Collect(lines) <==> exists i: nat :: LastOf(lines, i, ip)
    ensures forall i: nat :: LastOf(lines, i, ip) ==> At(Collect(lines), ip) == Some(ParseLine(lines[i]).value.1)
    decreases |lines|
  {
    if lines != [] {
      var n := |lines| - 1;
      CollectedExactly(lines[..n], ip);
      if LineOf(lines[n], ip) {
        assert LastOf(lines, n, ip);
      } else {
        forall i: nat ensures LastOf(lines, i, ip) <==> LastOf(lines[..n], i, ip) {
          NotTheLast(lines, i, ip);
        }
        assert At(Collect(lines), ip) == At(Collect(lines[..n]), ip);
      }
    }
  }

  lemma NotTheLast(lines: seq<string>, i: nat, ip: Ip)
    requires lines != [] && !LineOf(lines[|lines| - 1], ip)
    ensures LastOf(lines, i, ip) <==> LastOf(lines[..|lines| - 1], i, ip)
  {
  }

  lemma {:induction false} FindLowest(ips: set<Ip>) returns (m: Ip)
    requires ips != {}
    ensures m in ips && forall ip :: ip in ips ==> m <= ip
    decreases |ips|
  {
    var x :| x in ips;
    m := x;
    if ips != {x} {
      assert ips - {x} != {};
      var rest := FindLowest(ips - {x});
      m := if rest < x then rest else x;
      assert forall ip :: ip in ips ==> ip == x || ip in ips - {x};
    }
  }

  lemma HasLowest(ips: set<Ip>)
    requires ips != {}
    ensures exists m :: m in ips && forall ip :: ip in ips ==> m <= ip
  {
    var m := FindLowest(ips);
  }

  function Lowest(ips: set<Ip>): (m: Ip)
    requires ips != {}
    ensures m in ips && forall ip :: ip in ips ==> m <= ip
  {
    HasLowest(ips);
    var m :| m in ips && forall ip :: ip in ips ==> m <= ip;
    m
  }

  /** The addresses in order, each once. */
  function Sorted(ips: set<Ip>): (r: seq<Ip>)
    ensures forall ip :: ip in r <==> ip in ips
    ensures forall i, j :: 0 <= i < j < |r| ==> r[i] < r[j]
    decreases |ips|
  {
    if ips == {} then [] else [Lowest(ips)] + Sorted(ips - {Lowest(ips)})
  }

  function FormatLine(ip: Ip, h: Host): string {
    Quad(ip) + " " + (Dec(h.last) + " " + h.rule)
  }

  function FormatAll(ips: seq<Ip>, hosts: Hosts): string
    requires forall ip :: ip in ips ==> ip in hosts
  {
    if ips == [] then [] else FormatLine(ips[0], hosts[ips[0]]) + "\n" + FormatAll(ips[1..], hosts)
  }

  function Format(hosts: Hosts): string {
    FormatAll(Sorted(hosts.Keys), hosts)
  }

  lemma NameIsWord(s: string)
    requires IsName(s)
    ensures IsWord(s)
  {
  }

  lemma ThreeWords(a: string, b: string, c: string)
    requires IsWord(a) && IsWord(b) && IsWord(c)
    ensures Words(a + " " + (b + " " + c)) == [a, b, c]
  {
    WordsNext(a, b + " " + c);
    WordsNext(b, c);
    WordsLast(c);
  }

  lemma LineRoundTrip(ip: Ip, h: Host)
    requires IsName(h.rule) && h.last < U64
    ensures ParseLine(FormatLine(ip, h)) == Some((ip, h))
  {
    QuadIsWord(ip);
    NameIsWord(h.rule);
    assert IsWord(Dec(h.last));
    ThreeWords(Quad(ip), Dec(h.last), h.rule);
    QuadRoundTrip(ip);
    ParseDec(h.last, U64);
  }

  lemma LineIsOneLine(ip: Ip, h: Host)
    requires IsName(h.rule)
    ensures var l := FormatLine(ip, h); '\n' !in l && l != [] && l[|l| - 1] != '\r'
  {
    QuadIsWord(ip);
    var l, r := FormatLine(ip, h), h.rule;
    assert l[|l| - 1] == r[|r| - 1] && r[|r| - 1] in r;
  }

  lemma CollectFront(line: string, rest: seq<string>)
    requires ParseLine(line).Some?
    requires ParseLine(line).value.0 !in Collect(rest)
    ensures Collect([line] + rest) == Collect(rest)[ParseLine(line).value.0 := ParseLine(line).value.1]
  {
    var all := [line] + rest;
    if rest == [] {
      assert all[..0] == [];
    } else {
      var n := |rest| - 1;
      assert all[..|all| - 1] == [line] + rest[..n];
      CollectFront(line, rest[..n]);
    }
  }

  /** The hosts of these addresses. */
  function Of(ips: seq<Ip>, hosts: Hosts): Hosts
    requires forall ip :: ip in ips ==> ip in hosts
  {
    map ip | ip in ips :: hosts[ip]
  }

  lemma OfNext(ips: seq<Ip>, hosts: Hosts)
    requires ips != [] && forall ip :: ip in ips ==> ip in hosts
    ensures Of(ips, hosts) == Of(ips[1..], hosts)[ips[0] := hosts[ips[0]]]
  {
  }

  lemma ParseNext(ip: Ip, h: Host, rest: string)
    requires IsName(h.rule) && h.last < U64 && ip !in Parse(rest)
    ensures Parse(FormatLine(ip, h) + "\n" + rest) == Parse(rest)[ip := h]
  {
    LineRoundTrip(ip, h);
    LineIsOneLine(ip, h);
    LinesNext(FormatLine(ip, h), rest);
    CollectFront(FormatLine(ip, h), Lines(rest));
  }

  lemma {:induction false} FormatAllRoundTrip(ips: seq<Ip>, hosts: Hosts)
    requires Savable(hosts)
    requires forall ip :: ip in ips ==> ip in hosts
    requires forall i, j :: 0 <= i < j < |ips| ==> ips[i] < ips[j]
    ensures Parse(FormatAll(ips, hosts)) == Of(ips, hosts)
    decreases |ips|
  {
    if ips != [] {
      FormatAllRoundTrip(ips[1..], hosts);
      assert ips[0] !in ips[1..];
      ParseNext(ips[0], hosts[ips[0]], FormatAll(ips[1..], hosts));
      OfNext(ips, hosts);
    }
  }

  /** What is saved reads back as it was. */
  lemma RoundTrip(hosts: Hosts)
    requires Savable(hosts)
    ensures Parse(Format(hosts)) == hosts
  {
    FormatAllRoundTrip(Sorted(hosts.Keys), hosts);
  }
}
