/** What an `add` puts in the lists and what a name finds there: src/lists.rs. */
module DomainLists {
  import opened Wrappers
  import opened Subnets
  import opened Text

  function Lower(c: char): char {
    if 'A' <= c <= 'Z' then c - 'A' + 'a' else c
  }

  function ToLower(s: string): (r: string)
    ensures |r| == |s| && forall i :: 0 <= i < |s| ==> r[i] == Lower(s[i])
  {
    if s == [] then [] else [Lower(s[0])] + ToLower(s[1..])
  }

  function TrimDots(s: string): (r: string)
    ensures r == [] || r[|r| - 1] != '.'
  {
    if s != [] && s[|s| - 1] == '.' then TrimDots(s[..|s| - 1]) else s
  }

  /** One form for all spellings of a name: every trailing dot goes, then case. */
  function Normalize(name: string): string {
    ToLower(TrimDots(name))
  }

  predicate IsLabel(s: string) {
    0 < |s| <= 63 && forall c :: c in s ==> IsAlnum(c) || c == '-' || c == '_'
  }

  predicate IsDomain(name: string) {
    name != [] && |name| <= 253 && forall part :: part in Split(name, '.') ==> IsLabel(part)
  }

  /** `Subnet::parse`: an address, or one with a prefix; host bits dropped. */
  function ParseSubnet(text: string): (r: Option<Subnet>)
    ensures r.Some? ==> r.value.Normal()
  {
    var parts := SplitOnce(text, '/');
    var prefix := if parts.Some? then ParseUnsigned(parts.value.1, 256) else Some(32);
    if prefix.None? || prefix.value > 32 then None
    else
      var addr := ParseQuad(if parts.Some? then parts.value.0 else text);
      if addr.None? then None
      else
        MaskedIsNormal(addr.value, prefix.value);
        Some(Masked(addr.value, prefix.value))
  }

  datatype Line = Skipped | Net(subnet: Subnet) | Domain(name: string) | Rejected(line: string)

  function Bare(line: string): string {
    if |line| >= 2 && line[0] == '*' && line[1] == '.' then line[2..]
    else if |line| >= 1 && line[0] == '.' then line[1..]
    else line
  }

  /** What a trimmed line is, by what it reads as. */
  function Sorted(line: string, subnet: Option<Subnet>, domain: string): Line {
    if line == [] || line[0] == '#' then Skipped
    else if subnet.Some? then Net(subnet.value)
    else if IsDomain(domain) then Domain(domain)
    else Rejected(line)
  }

  function Classify(raw: string): (r: Line)
    ensures r.Net? ==> r.subnet.Normal()
  {
    var line := TrimEnd(TrimStart(raw));
    Sorted(line, ParseSubnet(line), Normalize(Bare(line)))
  }

  function Classified(lines: seq<string>): (r: seq<Line>)
    ensures |r| == |lines| && forall i :: 0 <= i < |r| ==> r[i] == Classify(lines[i])
  {
    seq(|lines|, i requires 0 <= i < |lines| => Classify(lines[i]))
  }

  /** What the lists hold. */
  datatype Catalog = Catalog(
    suffixes: map<string, seq<string>>,
    subnets: seq<(Subnet, string)>,
    rejected: seq<string>,
    names: seq<string>)

  function ListsAt(suffixes: map<string, seq<string>>, d: string): seq<string> {
    if d in suffixes then suffixes[d] else []
  }

  function WithLine(c: Catalog, name: string, line: Line): Catalog {
    match line
    case Skipped => c
    case Net(s) => c.(subnets := c.subnets + [(s, name)])
    case Domain(d) =>
      var had := ListsAt(c.suffixes, d);
      c.(suffixes := c.suffixes[d := if name in had then had else had + [name]])
    case Rejected(l) => c.(rejected := c.rejected + [name + ": " + l])
  }

  function WithLines(c: Catalog, name: string, lines: seq<Line>): Catalog {
    if lines == [] then c
    else WithLine(WithLines(c, name, lines[..|lines| - 1]), name, lines[|lines| - 1])
  }

  function Named(c: Catalog, name: string): Catalog {
    if name in c.names then c else c.(names := c.names + [name])
  }

  /** The name and its parent domains, nearest first. */
  function Parents(name: string): (r: seq<string>)
    ensures r != []
    decreases |name|
  {
    var at := SplitOnce(name, '.');
    [name] + if at.Some? then Parents(at.value.1) else []
  }

  function Merge(found: seq<string>, more: seq<string>): seq<string> {
    if more == [] then found
    else
      var front := Merge(found, more[..|more| - 1]);
      if more[|more| - 1] in front then front else front + [more[|more| - 1]]
  }

  /** The lists of each of `domains` in turn, each list once. */
  function Matched(suffixes: map<string, seq<string>>, domains: seq<string>): seq<string> {
    if domains == [] then []
    else Merge(Matched(suffixes, domains[..|domains| - 1]), ListsAt(suffixes, domains[|domains| - 1]))
  }

  lemma MatchedNext(suffixes: map<string, seq<string>>, domains: seq<string>, d: string)
    ensures Matched(suffixes, domains + [d]) == Merge(Matched(suffixes, domains), ListsAt(suffixes, d))
  {
  }

  lemma ParentsNext(name: string, done: seq<string>, rest: string)
    requires Parents(name) == done + Parents(rest)
    ensures var at := SplitOnce(rest, '.');
      Parents(name) == done + [rest] + if at.Some? then Parents(at.value.1) else []
  {
    var at := SplitOnce(rest, '.');
    assert Parents(rest) == [rest] + if at.Some? then Parents(at.value.1) else [];
  }

  class Lists {
    var suffixes: map<string, seq<string>>
    var subnets: seq<(Subnet, string)>
    var rejected: seq<string>
    var names: seq<string>

    constructor ()
      ensures Contents() == Catalog(map[], [], [], [])
    {
      suffixes, subnets, rejected, names := map[], [], [], [];
    }

    ghost function Contents(): Catalog
      reads this
    {
      Catalog(suffixes, subnets, rejected, names)
    }

    /** One line of a list. */
    method AddLine(name: string, raw: string)
      modifies this
      ensures Contents() == WithLine(old(Contents()), name, Classify(raw))
    {
      var line := TrimEnd(TrimStart(raw));
      if line == [] || line[0] == '#' {
        return;
      }
      var subnet := ParseSubnet(line);
      if subnet.Some? {
        subnets := subnets + [(subnet.value, name)];
        return;
      }
      var domain := Normalize(Bare(line));
      if IsDomain(domain) {
        var had := if domain in suffixes then suffixes[domain] else [];
        suffixes := suffixes[domain := if name in had then had else had + [name]];
      } else {
        rejected := rejected + [name + ": " + line];
      }
    }

    /** `add`: the lines of a list taken in. */
    method Add(name: string, text: string)
      modifies this
      ensures Contents() == WithLines(Named(old(Contents()), name), name, Classified(Lines(text)))
    {
      if name !in names {
        names := names + [name];
      }
      ghost var was := Contents();
      var lines := Lines(text);
      ghost var all := Classified(lines);
      for i := 0 to |lines|
        invariant Contents() == WithLines(was, name, all[..i])
      {
        AddLine(name, lines[i]);
        OneLineMore(was, name, all, i);
      }
      assert all[..|lines|] == all;
    }

    lemma OneLineMore(c: Catalog, name: string, lines: seq<Line>, i: nat)
      requires i < |lines|
      ensures WithLines(c, name, lines[..i + 1]) == WithLine(WithLines(c, name, lines[..i]), name, lines[i])
    {
      assert lines[..i + 1][..i] == lines[..i];
    }

    /** The lists of one domain, those not found yet. */
    method AddFound(found: seq<string>, here: seq<string>) returns (r: seq<string>)
      ensures r == Merge(found, here)
    {
      r := found;
      for i := 0 to |here|
        invariant r == Merge(found, here[..i])
      {
        assert here[..i + 1][..i] == here[..i];
        if here[i] !in r {
          r := r + [here[i]];
        }
      }
      assert here[..|here|] == here;
    }

    /** The loop of `match_domain`: up the name, one label off at a time. */
    method Climb(name: string) returns (found: seq<string>)
      ensures found == Matched(suffixes, Parents(name))
    {
      var rest := name;
      ghost var done: seq<string> := [];
      found := [];
      while true
        invariant Parents(name) == done + Parents(rest)
        invariant found == Matched(suffixes, done)
        decreases |rest|
      {
        found := AddFound(found, ListsAt(suffixes, rest));
        MatchedNext(suffixes, done, rest);
        ParentsNext(name, done, rest);
        done := done + [rest];
        var at := SplitOnce(rest, '.');
        if at.None? {
          return;
        }
        rest := at.value.1;
      }
    }

    /** `match_domain`. */
    method MatchDomain(name: string) returns (found: seq<string>)
      ensures found == Matched(suffixes, Parents(Normalize(name)))
    {
      found := Climb(Normalize(name));
    }
  }

  // What a match is

  predicate NoRepeats(s: seq<string>) {
    forall i, j :: 0 <= i < j < |s| ==> s[i] != s[j]
  }

  lemma MergeHas(found: seq<string>, more: seq<string>)
    ensures var r := Merge(found, more);
      found <= r && (forall l :: l in r <==> l in found || l in more) && (NoRepeats(found) ==> NoRepeats(r))
  {
  }

  /** Exactly the lists that have the name or one of its parent domains, without
      repeats. */
  lemma {:induction false} MatchedExactly(suffixes: map<string, seq<string>>, domains: seq<string>)
    ensures var r := Matched(suffixes, domains);
      NoRepeats(r) && forall l :: l in r <==> exists d :: d in domains && l in ListsAt(suffixes, d)
    decreases |domains|
  {
    if domains != [] {
      var n := |domains| - 1;
      MatchedExactly(suffixes, domains[..n]);
      MergeHas(Matched(suffixes, domains[..n]), ListsAt(suffixes, domains[n]));
      assert domains == domains[..n] + [domains[n]];
    }
  }

  /** Nearest first: what a shorter part of the way up finds comes ahead of all
      that the rest of it finds. */
  lemma {:induction false} NearestFirst(suffixes: map<string, seq<string>>, domains: seq<string>, k: nat)
    requires k <= |domains|
    ensures Matched(suffixes, domains[..k]) <= Matched(suffixes, domains)
    decreases |domains|
  {
    if k == |domains| {
      assert domains[..k] == domains;
    } else {
      var n := |domains| - 1;
      NearestFirst(suffixes, domains[..n], k);
      assert domains[..n][..k] == domains[..k];
      MergeHas(Matched(suffixes, domains[..n]), ListsAt(suffixes, domains[n]));
    }
  }

  lemma TailsOf(head: string, tail: string, p: string)
    requires '.' !in head
    ensures (exists x :: head + "." + tail == x + "." + p) <==> p == tail || exists y :: tail == y + "." + p
  {
    forall x | head + "." + tail == x + "." + p ensures p == tail || exists y :: tail == y + "." + p {
      TailOfTail(head, tail, x, p);
    }
    forall y | tail == y + "." + p ensures exists x :: head + "." + tail == x + "." + p {
      assert head + "." + tail == (head + "." + y) + "." + p;
    }
  }

  lemma NoTails(name: string, p: string)
    requires '.' !in name
    ensures !exists x :: name == x + "." + p
  {
  }

  /** The parent domains are what is left after a dot. */
  lemma {:induction false} ParentsAreTails(name: string, p: string)
    ensures p in Parents(name) <==> p == name || exists x :: name == x + "." + p
    decreases |name|
  {
    var at := SplitOnce(name, '.');
    FindFirst(name, '.');
    if at.Some? {
      var (head, tail) := at.value;
      assert name == head + "." + tail;
      ParentsAreTails(tail, p);
      TailsOf(head, tail, p);
    } else {
      assert name[..|name|] == name;
      NoTails(name, p);
    }
  }

  lemma DotInside(x: string, p: string)
    ensures (x + "." + p)[|x|] == '.'
    ensures '.' in x + "." + p
  {
  }

  lemma TailOfTail(head: string, tail: string, x: string, p: string)
    requires '.' !in head && head + "." + tail == x + "." + p
    ensures p == tail || exists y :: tail == y + "." + p
  {
    var name := head + "." + tail;
    DotInside(x, p);
    if |x| < |head| {
      assert false;
    } else if |x| == |head| {
      assert name[|head| + 1..] == tail && name[|x| + 1..] == p;
    } else {
      var y := tail[..|x| - |head| - 1];
      assert tail == name[|head| + 1..] == (x + "." + p)[|head| + 1..];
      assert tail == y + "." + p;
    }
  }

  // What adding a line does

  lemma WithLineKeeps(c: Catalog, name: string, line: Line, d: string)
    ensures forall l :: l in ListsAt(c.suffixes, d) ==> l in ListsAt(WithLine(c, name, line).suffixes, d)
    ensures line == Domain(d) ==> name in ListsAt(WithLine(c, name, line).suffixes, d)
    ensures forall l :: l in ListsAt(WithLine(c, name, line).suffixes, d) ==>
      l in ListsAt(c.suffixes, d) || (l == name && line == Domain(d))
  {
  }

  /** A list has a suffix after an `add` exactly when it had it before or a line
      of the text says so. */
  lemma {:induction false} AddedExactly(c: Catalog, name: string, lines: seq<Line>, d: string, l: string)
    ensures l in ListsAt(WithLines(c, name, lines).suffixes, d)
            <==> l in ListsAt(c.suffixes, d) || (l == name && Domain(d) in lines)
    decreases |lines|
  {
    if lines != [] {
      var n := |lines| - 1;
      AddedExactly(c, name, lines[..n], d, l);
      WithLineKeeps(WithLines(c, name, lines[..n]), name, lines[n], d);
      assert lines == lines[..n] + [lines[n]];
    }
  }

  lemma SplitPartsIn(s: string, c: char)
    ensures forall x :: x in s && x != c ==> exists p :: p in Split(s, c) && x in p
    ensures forall p, x :: p in Split(s, c) && x in p ==> x in s
    decreases |s|
  {
    var i := Find(s, c);
    if i < |s| {
      SplitPartsIn(s[i + 1..], c);
      assert s == s[..i] + [c] + s[i + 1..];
    } else {
      assert s in Split(s, c);
    }
  }

  lemma DomainChars(d: string)
    requires IsDomain(d)
    ensures forall x :: x in d ==> IsAlnum(x) || x == '-' || x == '_' || x == '.'
    ensures d[0] != '.' && d[|d| - 1] != '.'
  {
    SplitPartsIn(d, '.');
    FirstPart(d, '.');
    LastPart(d, '.');
  }

  lemma FirstPart(s: string, c: char)
    ensures s != [] && s[0] == c ==> [] in Split(s, c)
  {
  }

  lemma LastPart(s: string, c: char)
    ensures s != [] && s[|s| - 1] == c ==> [] in Split(s, c)
    decreases |s|
  {
    if s != [] && s[|s| - 1] == c {
      var i := Find(s, c);
      FindFirst(s, c);
      assert s[..|s|] == s && c in s;
      if i + 1 < |s| {
        LastPart(s[i + 1..], c);
      } else {
        assert s[i + 1..] == [];
        assert Split(s[i + 1..], c) == [[]];
      }
    }
  }

  lemma TrimmedIsItself(s: string)
    requires s != [] && !IsSpace(s[0]) && !IsSpace(s[|s| - 1])
    ensures TrimEnd(TrimStart(s)) == s
  {
  }

  /** Reads as a domain once its capitals and root dots are gone. */
  predicate ReadsAsDomain(d: string) {
    IsDomain(Normalize(d))
  }

  lemma TrimDotsParts(s: string)
    ensures TrimDots(s) <= s && forall i :: |TrimDots(s)| <= i < |s| ==> s[i] == '.'
  {
  }

  /** What reads as a domain is of plain characters, and starts with no dot. */
  lemma WrittenChars(d: string)
    requires ReadsAsDomain(d)
    ensures d != [] && d[0] != '.' && forall x :: x in d ==> IsAlnum(x) || x == '-' || x == '_' || x == '.'
  {
    var t := TrimDots(d);
    DomainChars(Normalize(d));
    TrimDotsParts(d);
    forall i | 0 <= i < |d| ensures IsAlnum(d[i]) || d[i] == '-' || d[i] == '_' || d[i] == '.' {
      if i < |t| {
        assert Lower(t[i]) in Normalize(d);
      }
    }
    assert Normalize(d)[0] == Lower(t[0]);
  }

  lemma NotASubnet(line: string, head: char)
    requires line != [] && line[0] == head && !IsDigit(head) && head != '/'
    ensures ParseSubnet(line).None?
  {
    var parts := SplitOnce(line, '/');
    var addr := if parts.Some? then parts.value.0 else line;
    assert addr != [] && addr[0] == head;
    var first := Split(addr, '.')[0];
    if head != '.' {
      assert first[0] == head && head in first;
    }
  }

  lemma ClassifyDomain(line: string, d: string)
    requires line != [] && line[0] != '#' && TrimEnd(TrimStart(line)) == line
    requires Normalize(Bare(line)) == d && IsDomain(d)
    ensures Classify(line) == Domain(d) <==> ParseSubnet(line).None?
  {
  }

  /** Nothing is trimmed off a domain with something plain ahead. */
  lemma WrittenIsTrim(d: string, ahead: string)
    requires ReadsAsDomain(d) && (ahead == [] || (!IsSpace(ahead[0]) && ahead[0] != '#'))
    ensures var line := ahead + d;
      line != [] && line[0] != '#' && TrimEnd(TrimStart(line)) == line
  {
    WrittenChars(d);
    assert d[0] in d && d[|d| - 1] in d;
    var line := ahead + d;
    assert line[|line| - 1] == d[|d| - 1];
    TrimmedIsItself(line);
  }

  lemma AheadIsDomain(d: string, ahead: string)
    requires ReadsAsDomain(d)
    requires ahead == [] || (!IsSpace(ahead[0]) && ahead[0] != '#')
    requires Bare(ahead + d) == d
    ensures Classify(ahead + d) == Domain(Normalize(d)) <==> ParseSubnet(ahead + d).None?
  {
    WrittenIsTrim(d, ahead);
    ClassifyDomain(ahead + d, Normalize(d));
  }

  lemma BareOf(d: string)
    requires ReadsAsDomain(d)
    ensures Bare("*." + d) == d && Bare("." + d) == d && Bare(d) == d
  {
    WrittenChars(d);
    assert ("*." + d)[2..] == d && ("." + d)[1..] == d && d[0] in d;
  }

  /** The three ways to write a domain, in capitals or with root dots or not: as
      it is, unless it reads as an address, with `*.`, or with a dot ahead. */
  lemma WaysToWrite(d: string)
    requires ReadsAsDomain(d)
    ensures Classify("*." + d) == Domain(Normalize(d)) && Classify("." + d) == Domain(Normalize(d))
    ensures Classify(d) == Domain(Normalize(d)) <==> ParseSubnet(d).None?
  {
    BareOf(d);
    AheadIsDomain(d, "*.");
    NotASubnet("*." + d, '*');
    AheadIsDomain(d, ".");
    NotASubnet("." + d, '.');
    assert "" + d == d;
    AheadIsDomain(d, "");
  }

  predicate DigitsAndDots(s: string) {
    forall x :: x in s ==> IsDigit(x) || x == '.'
  }

  /** One to three digits. */
  predicate IsOctet(s: string) {
    0 < |s| <= 3 && forall x :: x in s ==> IsDigit(x)
  }

  lemma DigitsAndDotsStay(s: string)
    requires DigitsAndDots(s) && s != [] && s[|s| - 1] != '.'
    ensures Normalize(s) == s && '/' !in s
  {
    var t := ToLower(s);
    forall i | 0 <= i < |s| ensures t[i] == s[i] {
      assert s[i] in s;
    }
  }

  lemma OctetsAreDigits(a: string, b: string, c: string, d: string)
    requires IsOctet(a) && IsOctet(b) && IsOctet(c) && IsOctet(d)
    ensures var q := a + "." + (b + "." + (c + "." + d)); DigitsAndDots(q) && 0 < |q| <= 15 && q[|q| - 1] != '.'
  {
    assert d[|d| - 1] in d;
    DigitsJoined(c, d);
    DigitsJoined(b, c + "." + d);
    DigitsJoined(a, b + "." + (c + "." + d));
  }

  lemma OctetsAreDomain(a: string, b: string, c: string, d: string)
    requires IsOctet(a) && IsOctet(b) && IsOctet(c) && IsOctet(d)
    ensures IsDomain(a + "." + (b + "." + (c + "." + d)))
  {
    OctetsAreDigits(a, b, c, d);
    SplitQuad(a, b, c, d);
    OctetsAreLabels([a, b, c, d]);
    LabelsAreDomain(a + "." + (b + "." + (c + "." + d)), [a, b, c, d]);
  }

  lemma OctetsAreNormal(a: string, b: string, c: string, d: string)
    requires IsOctet(a) && IsOctet(b) && IsOctet(c) && IsOctet(d)
    ensures var q := a + "." + (b + "." + (c + "." + d)); Normalize(q) == q && '/' !in q
  {
    OctetsAreDigits(a, b, c, d);
    DigitsAndDotsStay(a + "." + (b + "." + (c + "." + d)));
  }

  lemma LabelsAreDomain(q: string, parts: seq<string>)
    requires Split(q, '.') == parts && 0 < |q| <= 253 && forall p :: p in parts ==> IsLabel(p)
    ensures IsDomain(q)
  {
  }

  lemma DigitsJoined(a: string, b: string)
    requires IsOctet(a) && DigitsAndDots(b) && 0 < |b| <= 11 && b[|b| - 1] != '.'
    ensures var q := a + "." + b; DigitsAndDots(q) && 0 < |q| <= |b| + 4 && q[|q| - 1] != '.'
  {
  }

  lemma OctetsAreLabels(parts: seq<string>)
    requires forall i :: 0 <= i < |parts| ==> IsOctet(parts[i])
    ensures forall p :: p in parts ==> IsLabel(p)
  {
  }

  lemma QuadReads(ip: Ip)
    ensures ReadsAsDomain(Quad(ip)) && '/' !in Quad(ip)
  {
    var a, b, c, d := ip / 0x100_0000, ip / 0x1_0000 % 0x100, ip / 0x100 % 0x100, ip % 0x100;
    DecIsShort(a);
    DecIsShort(b);
    DecIsShort(c);
    DecIsShort(d);
    OctetsAreDomain(Dec(a), Dec(b), Dec(c), Dec(d));
    OctetsAreNormal(Dec(a), Dec(b), Dec(c), Dec(d));
  }

  lemma QuadParses(ip: Ip)
    requires '/' !in Quad(ip)
    ensures ParseSubnet(Quad(ip)).Some?
  {
    QuadRoundTrip(ip);
    FindNone(Quad(ip), '/');
  }

  /** Every address in dots reads as a domain and as a subnet both, and so is one:
      only behind `*.` or a dot it is a domain. */
  lemma QuadIsNoDomain(ip: Ip)
    ensures ReadsAsDomain(Quad(ip)) && ParseSubnet(Quad(ip)).Some? && Classify(Quad(ip)) != Domain(Normalize(Quad(ip)))
  {
    QuadReads(ip);
    QuadParses(ip);
    WaysToWrite(Quad(ip));
  }

  /** The lines that write the domain. */
  predicate Writes(line: string, d: string) {
    line == "*." + d || line == "." + d || (line == d && ParseSubnet(d).None?)
  }

  /** Spaces around the line are no matter. */
  lemma WritesDomain(raw: string, d: string)
    requires ReadsAsDomain(d) && Writes(TrimEnd(TrimStart(raw)), d)
    ensures Classify(raw) == Domain(Normalize(d))
  {
    var line := TrimEnd(TrimStart(raw));
    var ahead := if line == d then "" else if line == "." + d then "." else "*.";
    assert line == ahead + d;
    WrittenIsTrim(d, ahead);
    ClassifyTrimmed(raw, line);
    WaysToWrite(d);
  }

  lemma ClassifyTrimmed(raw: string, line: string)
    requires line == TrimEnd(TrimStart(raw)) && TrimEnd(TrimStart(line)) == line
    ensures Classify(raw) == Classify(line)
  {
  }

  /** List `l` has the name, or what is left of it after one of its dots. */
  ghost predicate Covers(suffixes: map<string, seq<string>>, l: string, name: string) {
    exists d :: d in suffixes && l in suffixes[d] && (name == d || exists x :: name == x + "." + d)
  }

  /** A query finds a list exactly when the list covers the name asked, in normal
      form. */
  lemma FoundExactly(suffixes: map<string, seq<string>>, query: string, l: string)
    ensures l in Matched(suffixes, Parents(Normalize(query))) <==> Covers(suffixes, l, Normalize(query))
  {
    var n := Normalize(query);
    MatchedExactly(suffixes, Parents(n));
    if l in Matched(suffixes, Parents(n)) {
      var d :| d in Parents(n) && l in ListsAt(suffixes, d);
      ParentsAreTails(n, d);
      assert d in suffixes && l in suffixes[d];
    }
    if Covers(suffixes, l, n) {
      var d :| d in suffixes && l in suffixes[d] && (n == d || exists x :: n == x + "." + d);
      ParentsAreTails(n, d);
      assert l in ListsAt(suffixes, d);
    }
  }

  /** A list with a domain, however written, covers it and everything under it. */
  lemma WrittenCovers(c: Catalog, name: string, lines: seq<string>, d: string, line: string, query: string)
    requires ReadsAsDomain(d)
    requires line in lines && Writes(TrimEnd(TrimStart(line)), d)
    requires Normalize(query) == Normalize(d) || exists x :: Normalize(query) == x + "." + Normalize(d)
    ensures name in Matched(WithLines(c, name, Classified(lines)).suffixes, Parents(Normalize(query)))
  {
    WritesDomain(line, d);
    var i :| 0 <= i < |lines| && lines[i] == line;
    assert Classified(lines)[i] == Domain(Normalize(d));
    AddedExactly(c, name, Classified(lines), Normalize(d), name);
    FoundExactly(WithLines(c, name, Classified(lines)).suffixes, query, name);
  }

  // What the words above mean

  /** Capitals are 32 below their small letters; a dot at the end is the root's. */
  lemma NormalizeMeans(name: string)
    ensures var r := Normalize(name);
      |r| <= |name| && (r == [] || r[|r| - 1] != '.') && (forall i :: |r| <= i < |name| ==> name[i] == '.')
      && forall i :: 0 <= i < |r| ==> r[i] as int == name[i] as int + if 65 <= name[i] as int <= 90 then 32 else 0
  {
    TrimDotsParts(name);
  }

  lemma LabelMeans(s: string)
    ensures IsLabel(s) <==>
            1 <= |s| <= 63
            && forall i :: 0 <= i < |s| ==> '0' <= s[i] <= '9' || 'a' <= s[i] <= 'z' || 'A' <= s[i] <= 'Z' || s[i] == '-' || s[i] == '_'
  {
    assert forall i :: 0 <= i < |s| ==> s[i] in s;
  }

  /** Labels with a dot between each two, up to 253 characters in all. */
  lemma {:induction false} DomainMeans(name: string)
    ensures IsDomain(name) <==> |name| <= 253 && Labels(name)
  {
    LabelsMean(name);
  }

  predicate Labels(s: string) {
    IsLabel(s) || exists i :: 0 <= i < |s| && s[i] == '.' && IsLabel(s[..i]) && Labels(s[i + 1..])
  }

  lemma {:induction false} LabelsMean(s: string)
    ensures Labels(s) <==> forall part :: part in Split(s, '.') ==> IsLabel(part)
    decreases |s|
  {
    var i := Find(s, '.');
    FindFirst(s, '.');
    if i < |s| {
      LabelsMean(s[i + 1..]);
      LabelsAtDot(s, i);
      assert Split(s, '.') == [s[..i]] + Split(s[i + 1..], '.');
    } else {
      assert s[..i] == s && Split(s, '.') == [s];
    }
  }

  lemma LabelsAtDot(s: string, i: nat)
    requires i < |s| && s[i] == '.' && '.' !in s[..i]
    ensures Labels(s) <==> IsLabel(s[..i]) && Labels(s[i + 1..])
  {
    if Labels(s) {
      DotIn(s, |s|, i);
      assert s[..|s|] == s;
      var j :| 0 <= j < |s| && s[j] == '.' && IsLabel(s[..j]) && Labels(s[j + 1..]);
      OnlyDot(s, i, j);
    }
  }

  lemma DotIn(s: string, n: nat, i: nat)
    requires i < n <= |s| && s[i] == '.'
    ensures '.' in s[..n] && !IsLabel(s[..n])
  {
    assert s[..n][i] in s[..n];
  }

  lemma OnlyDot(s: string, i: nat, j: nat)
    requires i < |s| && j < |s| && s[i] == '.' && s[j] == '.' && '.' !in s[..i] && IsLabel(s[..j])
    ensures i == j
  {
    if i < j {
      DotIn(s, j, i);
    } else if j < i {
      DotIn(s, i, j);
    }
  }

  /** `*.` or one dot ahead is off, and no more. */
  lemma BareMeans(d: string)
    ensures Bare("*." + d) == d && Bare("." + d) == d
    ensures (d == "" || d[0] != '.') && !("*." <= d) ==> Bare(d) == d
  {
    assert ("*." + d)[2..] == d && ("." + d)[1..] == d;
  }

  /** What a line is: nothing or a comment; a block of addresses; a domain; or none
      of these, which is kept as it was, trimmed. */
  lemma ClassifyMeans(raw: string)
    ensures var line := TrimEnd(TrimStart(raw));
      match Classify(raw)
      case Skipped => line == "" || "#" <= line
      case Net(s) => line != "" && !("#" <= line) && ParseSubnet(line) == Some(s)
      case Domain(d) => line != "" && !("#" <= line) && ParseSubnet(line).None? && d == Normalize(Bare(line)) && IsDomain(d)
      case Rejected(l) => l == line != "" && !("#" <= line) && ParseSubnet(line).None? && !IsDomain(Normalize(Bare(line)))
  {
  }

  // Blocks of addresses

  /** The text is the address in dots, alone or with a prefix. */
  ghost predicate WritesBlock(text: string, ip: Ip, prefix: Prefix) {
    (text == Quad(ip) && prefix == 32)
    || exists d :: text == Quad(ip) + "/" + d && ParseUnsigned(d, 256) == Some(prefix)
  }

  lemma BlockParses(text: string, ip: Ip, prefix: Prefix)
    requires WritesBlock(text, ip, prefix)
    ensures ParseSubnet(text) == Some(Masked(ip, prefix)) && text != "" && !("#" <= text)
  {
    QuadIsWord(ip);
    QuadRoundTrip(ip);
    assert '/' !in Quad(ip) && Quad(ip)[0] in Quad(ip);
    if text == Quad(ip) && prefix == 32 {
      FindNone(text, '/');
    } else {
      var d :| text == Quad(ip) + "/" + d && ParseUnsigned(d, 256) == Some(prefix);
      FindIn(Quad(ip), '/', d);
      assert text[0] == Quad(ip)[0];
    }
  }

  lemma ParsedIsWritten(text: string) returns (ip: Ip, prefix: Prefix)
    requires ParseSubnet(text).Some?
    ensures WritesBlock(text, ip, prefix) && ParseSubnet(text) == Some(Masked(ip, prefix))
  {
    var at := SplitOnce(text, '/');
    if at.Some? {
      ip, prefix := ParseQuad(at.value.0).value, ParseUnsigned(at.value.1, 256).value;
      QuadIsOnlyForm(at.value.0);
      SlashWrites(text, at.value.0, at.value.1, ip, prefix);
    } else {
      ip, prefix := ParseQuad(text).value, 32;
      QuadIsOnlyForm(text);
    }
  }

  lemma SlashWrites(text: string, q: string, d: string, ip: Ip, prefix: Prefix)
    requires SplitOnce(text, '/') == Some((q, d)) && q == Quad(ip) && ParseUnsigned(d, 256) == Some(prefix)
    ensures WritesBlock(text, ip, prefix)
  {
    assert text == q + "/" + d;
  }

  /** What reads as a subnet: an address in dots, with a prefix up to 32 or without
      one, and then it is the block with that prefix that holds the address. */
  lemma ParseSubnetMeans(text: string, s: Subnet)
    ensures ParseSubnet(text) == Some(s) <==> exists ip, prefix :: WritesBlock(text, ip, prefix) && s == Masked(ip, prefix)
  {
    if ParseSubnet(text).Some? {
      var ip, prefix := ParsedIsWritten(text);
    }
    forall ip, prefix | WritesBlock(text, ip, prefix) && s == Masked(ip, prefix) ensures ParseSubnet(text) == Some(s) {
      BlockParses(text, ip, prefix);
    }
  }

  /** Spaces around it or not. */
  lemma BlockIsNet(raw: string, ip: Ip, prefix: Prefix)
    requires WritesBlock(TrimEnd(TrimStart(raw)), ip, prefix)
    ensures Classify(raw) == Net(Masked(ip, prefix))
  {
    BlockParses(TrimEnd(TrimStart(raw)), ip, prefix);
  }

  /** The usual way to write a block, or one address, with spaces around it. */
  lemma WaysToWriteBlock(a: string, b: string, ip: Ip, prefix: Prefix)
    requires AllSpace(a) && AllSpace(b)
    ensures Classify(a + (Quad(ip) + "/" + Dec(prefix)) + b) == Net(Masked(ip, prefix))
    ensures Classify(a + Quad(ip) + b) == Net(Masked(ip, 32)) && Masked(ip, 32) == Host(ip)
  {
    var line := Quad(ip) + "/" + Dec(prefix);
    BlockIsTrim(ip, prefix);
    TrimsAround(a, line, b);
    ParseDec(prefix, 256);
    BlockIsNet(a + line + b, ip, prefix);
    TrimsAround(a, Quad(ip), b);
    BlockIsNet(a + Quad(ip) + b, ip, 32);
    HostContains(ip, ip);
  }

  lemma BlockIsTrim(ip: Ip, prefix: Prefix)
    ensures var q, d := Quad(ip), Dec(prefix); var line := q + "/" + d;
      q != "" && !IsSpace(q[0]) && !IsSpace(q[|q| - 1]) && !IsSpace(line[0]) && !IsSpace(line[|line| - 1])
  {
    var q, d := Quad(ip), Dec(prefix);
    QuadIsWord(ip);
    assert q[0] in q && q[|q| - 1] in q && d[|d| - 1] in d;
    var line := q + "/" + d;
    assert line[0] == q[0] && line[|line| - 1] == d[|d| - 1];
  }

  // What adding lines does to subnets, rejected lines and names

  /** A list has a subnet after an `add` exactly when it had it before or a line
      of the text says so. */
  lemma {:induction false} SubnetsAddedExactly(c: Catalog, name: string, lines: seq<Line>, s: Subnet, l: string)
    ensures (s, l) in WithLines(c, name, lines).subnets <==> (s, l) in c.subnets || (l == name && Net(s) in lines)
    decreases |lines|
  {
    if lines != [] {
      var n := |lines| - 1;
      SubnetsAddedExactly(c, name, lines[..n], s, l);
      assert lines == lines[..n] + [lines[n]];
    }
  }

  /** Rejected lines are kept in their order, each with its list's name. */
  lemma {:induction false} RejectedExactly(c: Catalog, name: string, lines: seq<Line>)
    ensures WithLines(c, name, lines).rejected == c.rejected + RejectedOf(name, lines)
    decreases |lines|
  {
    if lines != [] {
      RejectedExactly(c, name, lines[..|lines| - 1]);
    }
  }

  function RejectedOf(name: string, lines: seq<Line>): seq<string> {
    if lines == [] then []
    else
      var n := |lines| - 1;
      RejectedOf(name, lines[..n]) + match lines[n]
        case Rejected(l) => [name + ": " + l]
        case _ => []
  }

  lemma {:induction false} NamesKept(c: Catalog, name: string, lines: seq<Line>)
    ensures WithLines(Named(c, name), name, lines).names == if name in c.names then c.names else c.names + [name]
    decreases |lines|
  {
    if lines != [] {
      NamesKept(c, name, lines[..|lines| - 1]);
    }
  }

  /** A list has a subnet that holds `x`. */
  ghost predicate Holds(c: Catalog, name: string, x: Ip) {
    exists s: Subnet :: (s, name) in c.subnets && s.Contains(x)
  }

  /** The line writes a block that `x` is in: it has the leading bits of the address
      written, as many as the prefix says. */
  ghost predicate LineHolds(raw: string, x: Ip) {
    exists ip: Ip, prefix: Prefix :: WritesBlock(TrimEnd(TrimStart(raw)), ip, prefix) && x / Pow2(32 - prefix) == ip / Pow2(32 - prefix)
  }

  lemma LineHoldsMeans(raw: string, x: Ip)
    ensures LineHolds(raw, x) <==> Classify(raw).Net? && Classify(raw).subnet.Contains(x)
  {
    if LineHolds(raw, x) {
      var ip: Ip, prefix: Prefix :| WritesBlock(TrimEnd(TrimStart(raw)), ip, prefix) && x / Pow2(32 - prefix) == ip / Pow2(32 - prefix);
      BlockIsNet(raw, ip, prefix);
      MaskedMeans(ip, prefix, x);
    }
    if Classify(raw).Net? && Classify(raw).subnet.Contains(x) {
      NetLineHolds(raw, x);
    }
  }

  lemma NetLineHolds(raw: string, x: Ip)
    requires Classify(raw).Net? && Classify(raw).subnet.Contains(x)
    ensures LineHolds(raw, x)
  {
    var ip, prefix := ParsedIsWritten(TrimEnd(TrimStart(raw)));
    MaskedMeans(ip, prefix, x);
  }

  /** After an `add`, the list holds an address exactly when it did before, or a line
      of the text writes a block that the address is in. */
  lemma AddressesAddedExactly(c: Catalog, name: string, lines: seq<string>, x: Ip)
    ensures Holds(WithLines(c, name, Classified(lines)), name, x) <==>
            Holds(c, name, x) || exists i :: 0 <= i < |lines| && LineHolds(lines[i], x)
  {
    var all := Classified(lines);
    forall s ensures (s, name) in WithLines(c, name, all).subnets <==> (s, name) in c.subnets || Net(s) in all {
      SubnetsAddedExactly(c, name, all, s, name);
    }
    forall i | 0 <= i < |lines| ensures LineHolds(lines[i], x) <==> all[i].Net? && all[i].subnet.Contains(x) {
      LineHoldsMeans(lines[i], x);
    }
    if i :| 0 <= i < |lines| && LineHolds(lines[i], x) {
      assert all[i] == Net(all[i].subnet) && all[i] in all;
    }
  }

  /** What one `add` after another leaves of nothing. */
  function Built(adds: seq<(string, string)>): Catalog {
    if adds == [] then Catalog(map[], [], [], [])
    else
      var (name, text) := adds[|adds| - 1];
      WithLines(Named(Built(adds[..|adds| - 1]), name), name, Classified(Lines(text)))
  }

  lemma {:induction false} LinesStayNormal(c: Catalog, name: string, lines: seq<Line>)
    requires AllNormal(c.subnets)
    requires forall l :: l in lines && l.Net? ==> l.subnet.Normal()
    ensures AllNormal(WithLines(c, name, lines).subnets)
    decreases |lines|
  {
    if lines != [] {
      var n := |lines| - 1;
      LinesStayNormal(c, name, lines[..n]);
      assert lines[n] in lines;
      if lines[n].Net? {
        AllNormalAppend(WithLines(c, name, lines[..n]).subnets, lines[n].subnet, name);
      }
    }
  }

  /** Every subnet taken in is normal. */
  lemma {:induction false} SubnetsAreNormal(adds: seq<(string, string)>)
    ensures AllNormal(Built(adds).subnets)
    decreases |adds|
  {
    if adds != [] {
      SubnetsAreNormal(adds[..|adds| - 1]);
      var (name, text) := adds[|adds| - 1];
      LinesStayNormal(Named(Built(adds[..|adds| - 1]), name), name, Classified(Lines(text)));
    }
  }
}
