/** The pieces of Rust's `str` the parsers and printers use, and the numbers
    they read and write. */
module Text {
  import opened Wrappers
  import opened Subnets

  /** Unicode White_Space, as `trim` and `split_whitespace` take it. */
  predicate IsSpace(c: char) {
    '\t' <= c <= '\r' || c == ' ' || c == '\U{85}' || c == '\U{A0}' || c == '\U{1680}' || '\U{2000}' <= c <= '\U{200A}'
    || c == '\U{2028}' || c == '\U{2029}' || c == '\U{202F}' || c == '\U{205F}' || c == '\U{3000}'
  }

  predicate IsDigit(c: char) {
    '0' <= c <= '9'
  }

  predicate IsAlnum(c: char) {
    IsDigit(c) || 'a' <= c <= 'z' || 'A' <= c <= 'Z'
  }

  /** One word: something, and no space in it. */
  predicate IsWord(s: string) {
    s != [] && forall c :: c in s ==> !IsSpace(c)
  }

  /** Where `c` first is; the length when it is nowhere. */
  function Find(s: string, c: char): (i: nat)
    ensures i <= |s| && (i < |s| ==> s[i] == c)
  {
    if s == [] || s[0] == c then 0 else 1 + Find(s[1..], c)
  }

  lemma FindFirst(s: string, c: char)
    ensures c !in s[..Find(s, c)]
  {
  }

  lemma FindIn(a: string, c: char, b: string)
    requires c !in a
    ensures Find(a + [c] + b, c) == |a|
    ensures (a + [c] + b)[..|a|] == a && (a + [c] + b)[|a| + 1..] == b
  {
    if a != [] {
      assert (a + [c] + b)[1..] == a[1..] + [c] + b;
      FindIn(a[1..], c, b);
    }
  }

  lemma FindNone(a: string, c: char)
    requires c !in a
    ensures Find(a, c) == |a|
  {
  }

  /** `split_once`. */
  function SplitOnce(s: string, c: char): Option<(string, string)> {
    var i := Find(s, c);
    if i < |s| then Some((s[..i], s[i + 1..])) else None
  }

  /** `split`: one part more than there are separators. */
  function Split(s: string, c: char): (parts: seq<string>)
    ensures parts != [] && forall p :: p in parts ==> c !in p
    decreases |s|
  {
    var i := Find(s, c);
    FindFirst(s, c);
    assert i == |s| ==> s[..i] == s;
    if i < |s| then [s[..i]] + Split(s[i + 1..], c) else [s]
  }

  function WithoutCr(line: string): string {
    if line != [] && line[|line| - 1] == '\r' then line[..|line| - 1] else line
  }

  /** `lines`: the ending of the last line is optional. */
  function Lines(text: string): seq<string>
    decreases |text|
  {
    var i := Find(text, '\n');
    if i < |text| then [WithoutCr(text[..i])] + Lines(text[i + 1..])
    else if text == [] then [] else [text]
  }

  lemma LinesNext(line: string, rest: string)
    requires '\n' !in line && (line == [] || line[|line| - 1] != '\r')
    ensures Lines(line + "\n" + rest) == [line] + Lines(rest)
  {
    FindIn(line, '\n', rest);
  }

  /** Every ending takes one line, `\n` or `\r\n`; the last ending is optional, and
      no text has no lines. */
  lemma LinesMean(line: string, rest: string)
    requires '\n' !in line
    ensures Lines(line + "\r\n" + rest) == [line] + Lines(rest)
    ensures line == [] || line[|line| - 1] != '\r' ==> Lines(line + "\n" + rest) == [line] + Lines(rest)
    ensures line != [] ==> Lines(line) == [line]
    ensures Lines("") == []
  {
    FindIn(line + "\r", '\n', rest);
    FindIn(line, '\n', rest);
    FindNone(line, '\n');
    assert line + "\r\n" + rest == line + "\r" + "\n" + rest;
    assert (line + "\r")[..|line|] == line;
  }

  /** The code points of White_Space. */
  lemma SpacesAre(c: char)
    ensures IsSpace(c) <==> c as int in {9, 10, 11, 12, 13, 32, 133, 160, 5760, 8192, 8193, 8194, 8195, 8196, 8197, 8198, 8199, 8200,
                                         8201, 8202, 8232, 8233, 8239, 8287, 12288}
  {
  }

  predicate AllSpace(s: string) {
    forall c :: c in s ==> IsSpace(c)
  }

  /** Trimming takes the spaces off both ends, and nothing else. */
  lemma TrimsAround(a: string, s: string, b: string)
    requires AllSpace(a) && AllSpace(b) && (s == [] || (!IsSpace(s[0]) && !IsSpace(s[|s| - 1])))
    ensures TrimEnd(TrimStart(a + s + b)) == s
  {
    if s == [] {
      SpaceTrims(a, b);
      assert a + s + b == a + b;
    } else {
      TrimsBoth(a, s, b);
    }
  }

  lemma TrimsBoth(a: string, s: string, b: string)
    requires AllSpace(a) && AllSpace(b) && s != [] && !IsSpace(s[0]) && !IsSpace(s[|s| - 1])
    ensures TrimEnd(TrimStart(a + s + b)) == s
  {
    var t := s + b;
    assert t != [] && t[0] == s[0];
    TrimsStart(a, t);
    assert a + s + b == a + t;
    TrimsEnd(s, b);
  }

  lemma SpaceTrims(a: string, b: string)
    requires AllSpace(a) && AllSpace(b)
    ensures TrimStart(a + b) == ""
  {
    TrimsStart(a + b, "");
    assert a + b + "" == a + b;
  }

  lemma {:induction false} TrimsStart(a: string, s: string)
    requires AllSpace(a) && (s == [] || !IsSpace(s[0]))
    ensures TrimStart(a + s) == s
    decreases |a|
  {
    if a == [] {
      assert a + s == s;
    } else {
      assert (a + s)[1..] == a[1..] + s;
      TrimsStart(a[1..], s);
    }
  }

  lemma {:induction false} TrimsEnd(s: string, b: string)
    requires AllSpace(b) && (s == [] || !IsSpace(s[|s| - 1]))
    ensures TrimEnd(s + b) == s
    decreases |b|
  {
    if b == [] {
      assert s + b == s;
    } else {
      var n := |b| - 1;
      assert (s + b)[..|s| + n] == s + b[..n];
      TrimsEnd(s, b[..n]);
    }
  }

  function TrimStart(s: string): (r: string)
    ensures r != [] ==> !IsSpace(r[0])
  {
    if s != [] && IsSpace(s[0]) then TrimStart(s[1..]) else s
  }

  function TrimEnd(s: string): (r: string)
    ensures r != [] ==> !IsSpace(r[|r| - 1])
  {
    if s != [] && IsSpace(s[|s| - 1]) then TrimEnd(s[..|s| - 1]) else s
  }

  /** The length of the first word of what starts with one. */
  function WordLength(s: string): (n: nat)
    ensures n <= |s| && forall c :: c in s[..n] ==> !IsSpace(c)
    ensures n < |s| ==> IsSpace(s[n])
  {
    if s == [] || IsSpace(s[0]) then 0 else 1 + WordLength(s[1..])
  }

  /** `split_whitespace`. */
  function Words(s: string): seq<string>
    decreases |s|
  {
    if s == [] then []
    else if IsSpace(s[0]) then Words(s[1..])
    else
      var n := WordLength(s);
      [s[..n]] + Words(s[n..])
  }

  lemma WordLengthOf(w: string, rest: string)
    requires (forall c :: c in w ==> !IsSpace(c)) && (rest == [] || IsSpace(rest[0]))
    ensures WordLength(w + rest) == |w|
  {
    if w != [] {
      var all := w + rest;
      assert all[0] == w[0] && all[1..] == w[1..] + rest && w[0] in w;
      assert forall c :: c in w[1..] ==> c in w;
      WordLengthOf(w[1..], rest);
    } else {
      assert w + rest == rest;
    }
  }

  /** A word and then a space: the word, and the words after. */
  lemma WordsNext(w: string, rest: string)
    requires IsWord(w)
    ensures Words(w + " " + rest) == [w] + Words(rest)
  {
    WordLengthOf(w, " " + rest);
    assert w + " " + rest == w + (" " + rest);
    var s := w + (" " + rest);
    assert s[..|w|] == w && s[|w|..] == " " + rest;
    assert (" " + rest)[1..] == rest;
    assert !IsSpace(s[0]);
  }

  lemma WordsLast(w: string)
    requires IsWord(w)
    ensures Words(w) == [w]
  {
    WordLengthOf(w, []);
    assert w + [] == w && w[..|w|] == w && w[|w|..] == [];
    assert !IsSpace(w[0]);
  }

  /** Spaces ahead are no matter, and of spaces alone there are no words. */
  lemma {:induction false} WordsSkip(a: string, s: string)
    requires AllSpace(a)
    ensures Words(a + s) == Words(s) && Words("") == []
    decreases |a|
  {
    if a == [] {
      assert a + s == s;
    } else {
      var all := a + s;
      assert a[0] in a && all[0] == a[0] && all[1..] == a[1..] + s;
      WordsSkip(a[1..], s);
    }
  }

  // Numbers

  function Digit(d: nat): char
    requires d < 10
  {
    '0' + d as char
  }

  function Dec(n: nat): (s: string)
    ensures s != [] && forall c :: c in s ==> IsDigit(c)
    ensures |s| > 1 ==> s[0] != '0'
  {
    if n < 10 then [Digit(n)] else Dec(n / 10) + [Digit(n % 10)]
  }

  function DigitValue(c: char): (d: nat)
    requires IsDigit(c)
    ensures d < 10 && Digit(d) == c
  {
    (c - '0') as int
  }

  /** The value of decimal digits. */
  function ValueOf(s: string): nat
    requires forall c :: c in s ==> IsDigit(c)
  {
    if s == [] then 0 else 10 * ValueOf(s[..|s| - 1]) + DigitValue(s[|s| - 1])
  }

  lemma ValueOfDec(n: nat)
    ensures ValueOf(Dec(n)) == n
  {
  }

  /** `parse` of an unsigned integer below `limit`: digits, a plus ahead or not. */
  function ParseUnsigned(s: string, limit: nat): Option<nat> {
    var digits := if s != [] && s[0] == '+' then s[1..] else s;
    if digits != [] && (forall c :: c in digits ==> IsDigit(c)) && ValueOf(digits) < limit then Some(ValueOf(digits)) else None
  }

  lemma ParseDec(n: nat, limit: nat)
    requires n < limit
    ensures ParseUnsigned(Dec(n), limit) == Some(n)
  {
    ValueOfDec(n);
    assert Dec(n)[0] in Dec(n);
  }

  // Dotted quads

  function Quad(ip: Ip): string {
    Dec(ip / 0x100_0000) + "." + (Dec(ip / 0x1_0000 % 0x100) + "." + (Dec(ip / 0x100 % 0x100) + "." + Dec(ip % 0x100)))
  }

  /** One to three digits, no zero ahead of others, up to 255. */
  function ParseOctet(s: string): (r: Option<nat>)
    ensures r.Some? ==> r.value < 256
  {
    if 1 <= |s| <= 3 && (forall c :: c in s ==> IsDigit(c)) && (|s| == 1 || s[0] != '0') && ValueOf(s) < 256
    then Some(ValueOf(s)) else None
  }

  function ParseQuad(s: string): Option<Ip> {
    var p := Split(s, '.');
    if |p| != 4 then None
    else
      var a, b, c, d := ParseOctet(p[0]), ParseOctet(p[1]), ParseOctet(p[2]), ParseOctet(p[3]);
      if a.Some? && b.Some? && c.Some? && d.Some? then
        Some(a.value * 0x100_0000 + b.value * 0x1_0000 + c.value * 0x100 + d.value)
      else None
  }

  lemma DecIsShort(n: nat)
    ensures n < 10 ==> |Dec(n)| == 1
    ensures n < 100 ==> |Dec(n)| <= 2
    ensures n < 1000 ==> |Dec(n)| <= 3
  {
  }

  lemma ParseOctetDec(n: nat)
    requires n < 256
    ensures ParseOctet(Dec(n)) == Some(n)
  {
    ValueOfDec(n);
    DecIsShort(n);
  }

  lemma SplitNext(a: string, c: char, b: string)
    requires c !in a
    ensures Split(a + [c] + b, c) == [a] + Split(b, c)
  {
    FindIn(a, c, b);
  }

  /** Every address reads back as itself. */
  lemma QuadRoundTrip(ip: Ip)
    ensures ParseQuad(Quad(ip)) == Some(ip)
  {
    var a, b, c, d := ip / 0x100_0000, ip / 0x1_0000 % 0x100, ip / 0x100 % 0x100, ip % 0x100;
    ParseOctetDec(a);
    ParseOctetDec(b);
    ParseOctetDec(c);
    ParseOctetDec(d);
    SplitQuad(Dec(a), Dec(b), Dec(c), Dec(d));
    OctetsOf(ip);
  }

  lemma OctetsOf(ip: Ip)
    ensures ip == ip / 0x100_0000 * 0x100_0000 + ip / 0x1_0000 % 0x100 * 0x1_0000 + ip / 0x100 % 0x100 * 0x100 + ip % 0x100
  {
    var x, y := ip / 0x100, ip / 0x1_0000;
    assert y == x / 0x100 && ip / 0x100_0000 == y / 0x100;
    assert ip == x * 0x100 + ip % 0x100 && x == y * 0x100 + x % 0x100 && y == y / 0x100 * 0x100 + y % 0x100;
  }

  lemma SplitPair(c: string, d: string)
    requires '.' !in c && '.' !in d
    ensures Split(c + "." + d, '.') == [c, d]
  {
    SplitNext(c, '.', d);
    FindNone(d, '.');
  }

  lemma SplitQuad(a: string, b: string, c: string, d: string)
    requires '.' !in a && '.' !in b && '.' !in c && '.' !in d
    ensures Split(a + "." + (b + "." + (c + "." + d)), '.') == [a, b, c, d]
  {
    SplitPair(c, d);
    var cd := c + "." + d;
    assert Split(b + "." + cd, '.') == [b, c, d] by {
      SplitNext(b, '.', cd);
    }
    SplitNext(a, '.', b + "." + cd);
  }

  /** Digits without a zero ahead are their value's. */
  lemma {:induction false} DecOfValue(s: string)
    requires s != [] && (forall c :: c in s ==> IsDigit(c)) && (|s| == 1 || s[0] != '0')
    ensures Dec(ValueOf(s)) == s && (|s| > 1 ==> ValueOf(s) >= 10)
    decreases |s|
  {
    var n := |s| - 1;
    assert s == s[..n] + [s[n]];
    if n > 0 {
      DecOfValue(s[..n]);
      assert n == 1 ==> ValueOf(s[..n]) == DigitValue(s[0]) && s[..n][..0] == [];
    } else {
      assert s[..0] == [];
    }
  }

  lemma {:induction false} SplitJoins(s: string, c: char)
    ensures var p := Split(s, c); if |p| == 1 then s == p[0] else s == p[0] + [c] + s[|p[0]| + 1..] && Split(s[|p[0]| + 1..], c) == p[1..]
  {
  }

  lemma QuadSplits(s: string)
    requires |Split(s, '.')| == 4
    ensures var p := Split(s, '.'); s == p[0] + "." + (p[1] + "." + (p[2] + "." + p[3]))
  {
    var p := Split(s, '.');
    SplitJoins(s, '.');
    var t := s[|p[0]| + 1..];
    SplitJoins(t, '.');
    var u := t[|p[1]| + 1..];
    SplitJoins(u, '.');
    SplitJoins(u[|p[2]| + 1..], '.');
  }

  lemma OctetsRead(a: nat, b: nat, c: nat, d: nat)
    requires a < 256 && b < 256 && c < 256 && d < 256
    ensures var ip := a * 0x100_0000 + b * 0x1_0000 + c * 0x100 + d;
      ip / 0x100_0000 == a && ip / 0x1_0000 % 0x100 == b && ip / 0x100 % 0x100 == c && ip % 0x100 == d
  {
    var ip := a * 0x100_0000 + b * 0x1_0000 + c * 0x100 + d;
    assert ip / 0x100 == a * 0x1_0000 + b * 0x100 + c && ip / 0x1_0000 == a * 0x100 + b;
  }

  /** What reads as an address is the address in dots. */
  lemma QuadIsOnlyForm(s: string)
    requires ParseQuad(s).Some?
    ensures s == Quad(ParseQuad(s).value)
  {
    var p := Split(s, '.');
    QuadSplits(s);
    OctetsAreQuad(p[0], p[1], p[2], p[3]);
  }

  lemma OctetsAreQuad(a: string, b: string, c: string, d: string)
    requires ParseOctet(a).Some? && ParseOctet(b).Some? && ParseOctet(c).Some? && ParseOctet(d).Some?
    ensures Quad(ParseOctet(a).value * 0x100_0000 + ParseOctet(b).value * 0x1_0000 + ParseOctet(c).value * 0x100 + ParseOctet(d).value)
            == a + "." + (b + "." + (c + "." + d))
  {
    OctetIsDec(a);
    OctetIsDec(b);
    OctetIsDec(c);
    OctetIsDec(d);
    QuadOf(ParseOctet(a).value, ParseOctet(b).value, ParseOctet(c).value, ParseOctet(d).value);
  }

  lemma OctetIsDec(s: string)
    requires ParseOctet(s).Some?
    ensures s == Dec(ParseOctet(s).value)
  {
    DecOfValue(s);
  }

  lemma QuadOf(a: nat, b: nat, c: nat, d: nat)
    requires a < 256 && b < 256 && c < 256 && d < 256
    ensures Quad(a * 0x100_0000 + b * 0x1_0000 + c * 0x100 + d) == Dec(a) + "." + (Dec(b) + "." + (Dec(c) + "." + Dec(d)))
  {
    OctetsRead(a, b, c, d);
  }

  /** What reads as a number is its digits, zeros and a plus ahead or not. */
  lemma NumberRead(s: string, limit: nat, n: nat)
    ensures ParseUnsigned(s, limit) == Some(n) <==>
            n < limit && exists plus: string, zeros: string ::
              s == plus + zeros + Dec(n) && plus in ["", "+"] && forall c :: c in zeros ==> c == '0'
  {
    if ParseUnsigned(s, limit) == Some(n) {
      var plus, zeros := NumberIs(s, limit);
    }
    forall plus: string, zeros: string | s == plus + zeros + Dec(n) && plus in ["", "+"] && (forall c :: c in zeros ==> c == '0') && n < limit
      ensures ParseUnsigned(s, limit) == Some(n)
    {
      NumberParses(plus, zeros, n, limit);
    }
  }

  lemma NumberIs(s: string, limit: nat) returns (plus: string, zeros: string)
    requires ParseUnsigned(s, limit).Some?
    ensures s == plus + zeros + Dec(ParseUnsigned(s, limit).value) && plus in ["", "+"] && forall c :: c in zeros ==> c == '0'
  {
    if s != [] && s[0] == '+' {
      plus := "+";
      zeros := Zeros(s[1..]);
      assert s == [s[0]] + s[1..];
    } else {
      plus := "";
      zeros := Zeros(s);
    }
  }

  lemma NumberParses(plus: string, zeros: string, n: nat, limit: nat)
    requires plus in ["", "+"] && (forall c :: c in zeros ==> c == '0') && n < limit
    ensures ParseUnsigned(plus + zeros + Dec(n), limit) == Some(n)
  {
    var s, digits := plus + zeros + Dec(n), zeros + Dec(n);
    ZerosAhead(zeros, n);
    assert s == plus + digits;
    assert digits[0] in digits && s[|plus|..] == digits;
  }

  lemma {:induction false} ZerosAhead(zeros: string, n: nat)
    requires forall c :: c in zeros ==> c == '0'
    ensures (forall c :: c in zeros + Dec(n) ==> IsDigit(c)) && ValueOf(zeros + Dec(n)) == n
    decreases |zeros|, n
  {
    if n >= 10 {
      ZerosAhead(zeros, n / 10);
      assert (zeros + Dec(n))[..|zeros + Dec(n)| - 1] == zeros + Dec(n / 10);
    } else {
      AllZeros(zeros);
      assert (zeros + Dec(n))[..|zeros|] == zeros;
    }
  }

  lemma {:induction false} AllZeros(zeros: string)
    requires forall c :: c in zeros ==> c == '0'
    ensures (forall c :: c in zeros ==> IsDigit(c)) && ValueOf(zeros) == 0
  {
    if zeros != [] {
      var n := |zeros| - 1;
      forall c | c in zeros[..n] ensures c in zeros {
      }
      AllZeros(zeros[..n]);
      assert zeros[n] in zeros;
    }
  }

  /** The zeros ahead of a number's digits. */
  lemma {:induction false} Zeros(s: string) returns (zeros: string)
    requires s != [] && forall c :: c in s ==> IsDigit(c)
    ensures (forall c :: c in zeros ==> c == '0') && s == zeros + Dec(ValueOf(s))
    decreases |s|
  {
    if |s| == 1 || s[0] != '0' {
      DecOfValue(s);
      zeros := "";
    } else {
      var rest := s[1..];
      assert forall c :: c in rest ==> c in s;
      var more := Zeros(rest);
      ZeroAhead(s);
      zeros := OneZeroMore(s, more, Dec(ValueOf(rest)));
    }
  }

  lemma OneZeroMore(s: string, more: string, d: string) returns (zeros: string)
    requires s != [] && s[0] == '0' && s[1..] == more + d && forall c :: c in more ==> c == '0'
    ensures s == zeros + d && forall c :: c in zeros ==> c == '0'
  {
    zeros := "0" + more;
    assert s == [s[0]] + s[1..];
  }

  lemma {:induction false} ZeroAhead(s: string)
    requires s != [] && s[0] == '0' && forall c :: c in s ==> IsDigit(c)
    ensures ValueOf(s) == ValueOf(s[1..])
    decreases |s|
  {
    var n := |s| - 1;
    if n > 0 {
      ZeroAhead(s[..n]);
      assert s[..n][1..] == s[1..][..n - 1];
    } else {
      assert s[..0] == [] && s[1..] == [];
    }
  }

  lemma QuadIsWord(ip: Ip)
    ensures IsWord(Quad(ip))
    ensures forall c :: c in Quad(ip) ==> IsDigit(c) || c == '.'
  {
  }
}
