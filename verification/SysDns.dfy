/** Take-over and return of DNS settings, crash by crash: src/sysdns.rs. Any command may
    fail, with or without effect, and the daemon may die at any point. */
module SysDns {
  import opened Wrappers
  import opened Text

  const LOCAL := "127.0.0.1"

  type Servers = seq<string>

  datatype Entry = Entry(svc: string, servers: Servers)

  // The file

  predicate IsService(s: string) {
    '\t' !in s && '\n' !in s
  }

  predicate AreServers(servers: Servers) {
    forall s :: s in servers ==> IsWord(s)
  }

  predicate AreEntries(es: seq<Entry>) {
    forall e :: e in es ==> IsService(e.svc) && AreServers(e.servers)
  }

  function Join(servers: Servers): string {
    if servers == [] then []
    else if |servers| == 1 then servers[0]
    else servers[0] + " " + Join(servers[1..])
  }

  function FormatEntry(e: Entry): string {
    e.svc + "\t" + Join(e.servers)
  }

  function FormatSaved(es: seq<Entry>): string {
    if es == [] then [] else FormatEntry(es[0]) + "\n" + FormatSaved(es[1..])
  }

  function ParseEntries(lines: seq<string>): seq<Entry> {
    if lines == [] then []
    else
      var at := SplitOnce(lines[0], '\t');
      (if at.Some? then [Entry(at.value.0, Words(at.value.1))] else []) + ParseEntries(lines[1..])
  }

  function ParseSaved(text: string): seq<Entry> {
    ParseEntries(Lines(text))
  }

  lemma {:induction false} WordsOfJoin(servers: Servers)
    requires AreServers(servers)
    ensures Words(Join(servers)) == servers
    decreases |servers|
  {
    if |servers| == 1 {
      WordsLast(servers[0]);
    } else if |servers| > 1 {
      WordsOfJoin(servers[1..]);
      WordsNext(servers[0], Join(servers[1..]));
    }
  }

  lemma {:induction false} JoinIsPlain(servers: Servers)
    requires AreServers(servers)
    ensures '\n' !in Join(servers)
    ensures Join(servers) != [] ==> Join(servers)[|Join(servers)| - 1] != '\r'
    decreases |servers|
  {
    if servers != [] {
      var w := servers[0];
      assert IsWord(w);
      assert w[|w| - 1] in w;
      JoinIsPlain(servers[1..]);
      if |servers| > 1 {
        var j := Join(servers[1..]);
        assert |j| == 0 ==> (w + " " + j)[|w + " " + j| - 1] == ' ';
      }
    }
  }

  lemma EntryRoundTrip(e: Entry, rest: string)
    requires IsService(e.svc) && AreServers(e.servers)
    ensures ParseSaved(FormatEntry(e) + "\n" + rest) == [e] + ParseSaved(rest)
  {
    JoinIsPlain(e.servers);
    var line := FormatEntry(e);
    LinesNext(line, rest);
    FindIn(e.svc, '\t', Join(e.servers));
    WordsOfJoin(e.servers);
    assert ([line] + Lines(rest))[1..] == Lines(rest);
  }

  /** What is saved reads back as it was. */
  lemma {:induction false} SavedRoundTrip(es: seq<Entry>)
    requires AreEntries(es)
    ensures ParseSaved(FormatSaved(es)) == es
    decreases |es|
  {
    if es != [] {
      SavedRoundTrip(es[1..]);
      EntryRoundTrip(es[0], FormatSaved(es[1..]));
    }
  }

  lemma WordsAreWords(s: string)
    ensures forall w :: w in Words(s) ==> IsWord(w)
    decreases |s|
  {
  }

  lemma LinesAreLines(text: string)
    ensures forall l :: l in Lines(text) ==> '\n' !in l
    decreases |text|
  {
    var i := Find(text, '\n');
    FindFirst(text, '\n');
    if i < |text| {
      LinesAreLines(text[i + 1..]);
    } else {
      assert text[..i] == text;
    }
  }

  lemma {:induction false} ParsedAreEntries(lines: seq<string>)
    requires forall l :: l in lines ==> '\n' !in l
    ensures AreEntries(ParseEntries(lines))
    decreases |lines|
  {
    if lines != [] {
      ParsedAreEntries(lines[1..]);
      var at := SplitOnce(lines[0], '\t');
      if at.Some? {
        WordsAreWords(at.value.1);
        FindFirst(lines[0], '\t');
        assert lines[0] in lines;
        assert forall c :: c in at.value.0 ==> c in lines[0];
      }
    }
  }

  /** Whatever is in the file, what is read from it can be written again. */
  lemma ReadBackIsSavable(text: string)
    ensures AreEntries(ParseSaved(text))
  {
    LinesAreLines(text);
    ParsedAreEntries(Lines(text));
  }

  // The Mac

  /** What becomes of a command, or of a read or write of the file: it may fail, or
      the daemon may die while it waits, each with or without effect. */
  datatype Fate = Works | Fails(effect: bool) | Dies(effect: bool) {
    predicate Takes() {
      Works? || effect
    }
  }

  type Fates = nat -> Fate

  function FateOf(fates: Fates, n: nat): Fate {
    fates(n)
  }

  /** The file, and what each network service is set to; none is DHCP's. And
      two pieces of history: what the file was given for each service since it
      was last missing, and the services set to the resolver since. `calls`
      counts the commands; what becomes of which is given by `fates`. */
  datatype Mac = Mac(file: Option<string>, dns: map<string, Servers>, first: map<string, Servers>, ours: set<string>,
                     calls: nat, fates: Fates)

  ghost predicate AllWork(fates: Fates, lo: nat, hi: nat) {
    forall n: nat :: lo <= n < hi ==> FateOf(fates, n).Works?
  }

  lemma Joined(fates: Fates, lo: nat, mid: nat, hi: nat)
    requires lo <= mid <= hi
    ensures AllWork(fates, lo, hi) <==> AllWork(fates, lo, mid) && AllWork(fates, mid, hi)
    ensures SomeDies(fates, lo, hi) <==> SomeDies(fates, lo, mid) || SomeDies(fates, mid, hi)
  {
  }

  ghost predicate SomeDies(fates: Fates, lo: nat, hi: nat) {
    exists n: nat :: lo <= n < hi && FateOf(fates, n).Dies?
  }

  function Saved(file: Option<string>): seq<Entry> {
    if file.Some? then ParseSaved(file.value) else []
  }

  function Lookup(es: seq<Entry>, svc: string): Option<Servers> {
    if es == [] then None
    else if es[0].svc == svc then Some(es[0].servers)
    else Lookup(es[1..], svc)
  }

  function WithoutLocal(servers: Servers): Servers {
    if servers == [] then []
    else (if servers[0] != LOCAL then [servers[0]] else []) + WithoutLocal(servers[1..])
  }

  predicate Distinct(es: seq<Entry>) {
    forall i, j :: 0 <= i < j < |es| ==> es[i].svc != es[j].svc
  }

  /** The file says exactly what it was given, and every service switched is in
      it; the services have the names and servers macOS gives. */
  ghost predicate Inv(m: Mac) {
    Distinct(Saved(m.file))
    && (forall svc :: Lookup(Saved(m.file), svc) == At(m.first, svc))
    && m.ours <= m.first.Keys
    && (forall svc :: svc in m.dns ==> IsService(svc) && AreServers(m.dns[svc]))
  }

  datatype Ending = Done(n: nat) | Failed | Crashed

  /** Done exactly when every command worked, crashed exactly when one died. */
  ghost predicate EndsBy(m: Mac, e: Ending, m': Mac) {
    m.calls <= m'.calls && m'.fates == m.fates
    && (e.Done? <==> AllWork(m.fates, m.calls, m'.calls)) && (e.Crashed? <==> SomeDies(m.fates, m.calls, m'.calls))
  }

  /** A take-over, ended in any way: a service is as it was, or on the resolver
      with the file knowing what it had; what the file knew it still does. */
  ghost predicate TakesOver(m: Mac, e: Ending, m': Mac) {
    EndsBy(m, e, m')
    && m'.dns.Keys == m.dns.Keys
    && (forall svc :: svc in m.dns ==> m'.dns[svc] == m.dns[svc] || (m'.dns[svc] == [LOCAL] && svc in m'.ours))
    && (forall svc :: svc in m.first ==> At(m'.first, svc) == Some(m.first[svc]))
    && (forall svc :: svc in m'.first && svc !in m.first ==> svc in m.dns && m'.first[svc] == WithoutLocal(m.dns[svc]))
    && (forall svc :: Lookup(Saved(m'.file), svc) == At(m'.first, svc)) && Distinct(Saved(m'.file))
    && m.ours <= m'.ours <= m'.first.Keys
    && (e.Done? ==> forall svc :: svc in m.dns ==> m'.dns[svc] == [LOCAL] && svc in m'.first)
  }

  /** A give-back, ended in any way: the file goes only once every service it
      knows and the Mac still has is back to what the file says. */
  ghost predicate GivesBack(m: Mac, e: Ending, m': Mac) {
    EndsBy(m, e, m')
    && m'.dns.Keys == m.dns.Keys
    && (forall svc :: svc in m.dns ==> m'.dns[svc] == m.dns[svc] || Some(m'.dns[svc]) == At(m.first, svc))
    && ((m'.file == m.file && m'.first == m.first && m'.ours == m.ours)
        || (m'.file.None? && m'.first == map[] && m'.ours == {}
            && forall svc :: svc in m.dns && svc in m.first ==> m'.dns[svc] == m.first[svc]))
    && (e.Done? ==> m'.file.None?)
  }

  function Reads(m: Mac): nat {
    if m.file.Some? then 1 else 0
  }

  /** The last command was the one that failed, and it was the read of the file,
      the listing of the services, or the write of the file after all of them
      were read: no service is touched. */
  ghost predicate NotBegun(m: Mac, m': Mac) {
    var n := m'.calls - m.calls;
    m'.dns == m.dns && n > 0 && FateOf(m.fates, m'.calls - 1).Fails?
    && (n <= Reads(m) + 1 || n == Reads(m) + |m.dns| + 2)
  }

  /** What comes of one service, by the fate of the command that reads it. */
  predicate ReadOf(f: Fate, dns: map<string, Servers>, svc: string, given: set<string>, todo: seq<string>) {
    f.Works? && svc in dns ==> svc in given && (dns[svc] == [LOCAL] || svc in todo)
  }

  /** Every service asked for its servers, in turn by the commands from the `lo`-th
      on: when the answer came, it is in the file, and to be set if it is not. */
  ghost predicate Asked(m: Mac, lo: nat, names: seq<string>, given: set<string>, todo: seq<string>) {
    (forall svc :: svc in m.dns ==> svc in names)
    && forall i :: 0 <= i < |names| ==> ReadOf(FateOf(m.fates, lo + i), m.dns, names[i], given, todo)
  }

  /** Each of `todo` set, in turn by the commands from the `lo`-th on. */
  ghost predicate SetTo(fates: Fates, lo: nat, todo: seq<string>, dns: map<string, Servers>) {
    forall k :: 0 <= k < |todo| ==> !FateOf(fates, lo + k).Takes() || At(dns, todo[k]) == Some([LOCAL])
  }

  /** Of a take-over not ended so, one service that fails does not stop the rest:
      the commands are the asking, perhaps the writing of the file, the setting of
      those that are not on the resolver yet. */
  ghost predicate AllAsked(m: Mac, m': Mac, names: seq<string>, todo: seq<string>) {
    var asked, set_ := m.calls + Reads(m) + 1, m'.calls - |todo|;
    asked + |names| <= set_ <= asked + |names| + 1 && Asked(m, asked, names, m'.first.Keys, todo) && SetTo(m.fates, set_, todo, m'.dns)
    && forall svc :: svc in todo ==> svc in m.dns && m.dns[svc] != [LOCAL]
  }

  /** A take-over as far as the file, which now knows every service to be set. */
  ghost predicate Prepared(m: Mac, names: seq<string>, todo: seq<string>, failed: bool, m': Mac) {
    m'.dns == m.dns && m'.ours == m.ours && m'.fates == m.fates
    && (forall svc :: svc in m.first ==> At(m'.first, svc) == Some(m.first[svc]))
    && (forall svc :: svc in m'.first && svc !in m.first ==> svc in m.dns && m'.first[svc] == WithoutLocal(m.dns[svc]))
    && (forall svc :: Lookup(Saved(m'.file), svc) == At(m'.first, svc)) && Distinct(Saved(m'.file))
    && (forall svc :: svc in todo ==> svc in m.dns && m.dns[svc] != [LOCAL] && svc in m'.first)
    && 0 <= m'.calls - (m.calls + Reads(m) + 1 + |names|) <= 1 && Asked(m, m.calls + Reads(m) + 1, names, m'.first.Keys, todo)
    && !SomeDies(m.fates, m.calls, m'.calls) && (!failed <==> AllWork(m.fates, m.calls, m'.calls))
  }

  /** The services set. */
  ghost predicate AllSet(m: Mac, todo: seq<string>, e: Ending, m': Mac) {
    m'.file == m.file && m'.first == m.first && m.ours <= m'.ours <= m.first.Keys && m'.dns.Keys == m.dns.Keys
    && EndsBy(m, e, m')
    && (forall svc :: svc in m.dns ==> m'.dns[svc] == m.dns[svc] || (m'.dns[svc] == [LOCAL] && svc in m'.ours))
    && (!e.Crashed? ==> m'.calls == m.calls + |todo| && SetTo(m.fates, m.calls, todo, m'.dns))
  }

  /** What the file is to say, and which services to switch. */
  ghost predicate ToSave(m: Mac, saved: seq<Entry>, given: map<string, Servers>, todo: seq<string>) {
    AreEntries(saved) && Distinct(saved)
    && (forall svc :: Lookup(saved, svc) == At(given, svc))
    && (forall svc :: svc in m.first ==> At(given, svc) == Some(m.first[svc]))
    && (forall svc :: svc in given && svc !in m.first ==> svc in m.dns && given[svc] == WithoutLocal(m.dns[svc]))
    && (forall svc :: svc in todo ==> svc in m.dns && m.dns[svc] != [LOCAL] && svc in given)
  }

  /** The first `n` of the services read. */
  ghost predicate ReadSoFar(m: Mac, names: seq<string>, n: nat, given: set<string>, todo: seq<string>) {
    n <= |names| && forall i :: 0 <= i < n ==> ReadOf(FateOf(m.fates, m.calls + i), m.dns, names[i], given, todo)
  }

  lemma ReadMore(m: Mac, names: seq<string>, n: nat, given: set<string>, todo: seq<string>, given': set<string>, todo': seq<string>)
    requires ReadSoFar(m, names, n, given, todo) && n < |names| && given <= given' && (forall svc :: svc in todo ==> svc in todo')
    requires ReadOf(FateOf(m.fates, m.calls + n), m.dns, names[n], given', todo')
    ensures ReadSoFar(m, names, n + 1, given', todo')
  {
    forall i | 0 <= i < n ensures ReadOf(FateOf(m.fates, m.calls + i), m.dns, names[i], given', todo') {
      assert ReadOf(FateOf(m.fates, m.calls + i), m.dns, names[i], given, todo);
    }
  }

  /** The services read. */
  ghost predicate Surveyed(m: Mac, names: seq<string>, died: bool, saved: seq<Entry>, changed: bool, todo: seq<string>, failed: bool,
                           given: map<string, Servers>, m': Mac)
  {
    ToSave(m, saved, given, todo) && (!changed ==> given == m.first)
    && (!died ==> m'.calls == m.calls + |names| && ReadSoFar(m, names, |names|, given.Keys, todo))
    && m.calls <= m'.calls && (died <==> SomeDies(m.fates, m.calls, m'.calls))
    && (!died && !failed <==> AllWork(m.fates, m.calls, m'.calls))
  }

  lemma OnFile(m: Mac, saved: seq<Entry>, changed: bool, todo: seq<string>, given: map<string, Servers>, m': Mac)
    requires Inv(m) && ToSave(m, saved, given, todo) && m'.first == given
    requires if changed then Saved(m'.file) == saved else m'.file == m.file && given == m.first
    ensures (forall svc :: Lookup(Saved(m'.file), svc) == At(m'.first, svc)) && Distinct(Saved(m'.file))
  {
    forall svc ensures Lookup(Saved(m'.file), svc) == At(m'.first, svc) {
      assert changed || Lookup(Saved(m.file), svc) == At(m.first, svc);
      assert Lookup(saved, svc) == At(given, svc);
    }
  }

  lemma PreparedWell(fates: Fates, lo: nat, a: nat, b: nat, hi: nat, failed: bool)
    requires lo <= a <= b <= hi && AllWork(fates, lo, a) && !SomeDies(fates, a, b) && (!failed <==> AllWork(fates, a, b))
    requires hi == b || (hi == b + 1 && FateOf(fates, b).Works?)
    ensures !SomeDies(fates, lo, hi) && (!failed <==> AllWork(fates, lo, hi))
  {
    Joined(fates, lo, a, b);
    Joined(fates, lo, b, hi);
  }

  lemma SurveyAsks(m: Mac, m1: Mac, names: seq<string>, saved: seq<Entry>, changed: bool, todo: seq<string>, failed: bool,
                   given: map<string, Servers>, m2: Mac, first: map<string, Servers>)
    requires Surveyed(m1, names, false, saved, changed, todo, failed, given, m2) && m1 == m.(calls := m.calls + Reads(m) + 1)
    requires (forall svc :: svc in m.dns ==> svc in names) && first == given
    ensures Asked(m, m.calls + Reads(m) + 1, names, first.Keys, todo)
  {
    var lo := m.calls + Reads(m) + 1;
    forall i | 0 <= i < |names| ensures ReadOf(FateOf(m.fates, lo + i), m.dns, names[i], first.Keys, todo) {
      assert ReadOf(FateOf(m1.fates, m1.calls + i), m1.dns, names[i], given.Keys, todo);
    }
  }

  /** One more service in the file, and to be switched or not. */
  lemma SaveMore(m: Mac, saved: seq<Entry>, given: map<string, Servers>, todo: seq<string>, svc: string, todo': seq<string>)
    requires ToSave(m, saved, given, todo) && svc in m.dns && IsService(svc) && AreServers(m.dns[svc])
    requires todo' == todo || (todo' == todo + [svc] && m.dns[svc] != [LOCAL])
    ensures svc in given ==> ToSave(m, saved, given, todo')
    ensures svc !in given ==>
      ToSave(m, saved + [Entry(svc, WithoutLocal(m.dns[svc]))], given[svc := WithoutLocal(m.dns[svc])], todo')
  {
    assert Lookup(saved, svc) == At(given, svc);
    if svc !in given {
      SaveNew(m, saved, given, svc);
    }
  }

  lemma SaveNew(m: Mac, saved: seq<Entry>, given: map<string, Servers>, svc: string)
    requires AreEntries(saved) && Distinct(saved) && (forall s :: Lookup(saved, s) == At(given, s)) && svc !in given
    requires svc in m.dns && IsService(svc) && AreServers(m.dns[svc])
    ensures var kept := WithoutLocal(m.dns[svc]); var saved' := saved + [Entry(svc, kept)];
      AreEntries(saved') && Distinct(saved') && forall s :: Lookup(saved', s) == At(given[svc := kept], s)
  {
    var kept := WithoutLocal(m.dns[svc]);
    WithoutLocalAreServers(m.dns[svc]);
    assert Lookup(saved, svc) == At(given, svc);
    LookupNone(saved, svc);
    forall s ensures Lookup(saved + [Entry(svc, kept)], s) == At(given[svc := kept], s) {
      LookupAppend(saved, Entry(svc, kept), s);
      assert Lookup(saved, s) == At(given, s);
    }
  }

  /** The survey written down, unless there was nothing new. */
  lemma SurveyIsPrepared(m: Mac, m1: Mac, names: seq<string>, saved: seq<Entry>, changed: bool, todo: seq<string>, failed: bool,
                         given: map<string, Servers>, m2: Mac, m': Mac)
    requires Inv(m) && m1 == m.(calls := m.calls + Reads(m) + 1) && AllWork(m.fates, m.calls, m1.calls)
    requires Surveyed(m1, names, false, saved, changed, todo, failed, given, m2) && m2 == m1.(calls := m2.calls)
    requires forall svc :: svc in m.dns ==> svc in names
    requires if changed then m' == m2.(file := m'.file, first := given, calls := m2.calls + 1) && Saved(m'.file) == saved
                             && FateOf(m.fates, m2.calls).Works?
             else m' == m2
    ensures Prepared(m, names, todo, failed, m')
  {
    PreparedWell(m.fates, m.calls, m1.calls, m2.calls, m'.calls, failed);
    OnFile(m, saved, changed, todo, given, m');
    SurveyAsks(m, m1, names, saved, changed, todo, failed, given, m2, m'.first);
  }

  /** Given up before any service is set. */
  lemma GivenUp(m: Mac, e: Ending, m': Mac)
    requires Inv(m) && EndsBy(m, e, m') && !e.Done? && m' == m.(calls := m'.calls)
    ensures TakesOver(m, e, m')
  {
  }

  /** Given up at the file, which is as it was or as it was to be. */
  lemma NotWritten(m: Mac, m1: Mac, names: seq<string>, saved: seq<Entry>, changed: bool, todo: seq<string>, failed: bool,
                   given: map<string, Servers>, m2: Mac, e: Ending, m': Mac)
    requires Inv(m) && m1 == m.(calls := m.calls + Reads(m) + 1) && AllWork(m.fates, m.calls, m1.calls)
    requires Surveyed(m1, names, false, saved, changed, todo, failed, given, m2) && m2 == m1.(calls := m2.calls)
    requires !FateOf(m.fates, m2.calls).Works? && e == if FateOf(m.fates, m2.calls).Dies? then Crashed else Failed
    requires m' == m2.(file := m'.file, first := m'.first, calls := m2.calls + 1)
    requires (m'.first == given && Saved(m'.file) == saved) || (m'.first == m.first && m'.file == m.file)
    requires |names| == |m.dns|
    ensures TakesOver(m, e, m') && (e.Failed? ==> NotBegun(m, m'))
  {
    Joined(m.fates, m.calls, m1.calls, m2.calls);
    Joined(m.fates, m.calls, m2.calls, m'.calls);
    assert FateOf(m.fates, m2.calls) == FateOf(m'.fates, m2.calls);
    if m'.file != m.file || m'.first != m.first {
      OnFile(m, saved, true, todo, given, m');
    }
  }

  lemma InTwoHalves(m: Mac, names: seq<string>, todo: seq<string>, failed: bool, p: Mac, e: Ending, m': Mac)
    requires Prepared(m, names, todo, failed, p) && AllSet(p, todo, e, m')
    ensures EndsBy(m, if e.Done? && failed then Failed else e, m')
  {
    Joined(m.fates, m.calls, p.calls, m'.calls);
  }

  lemma EachAsked(m: Mac, names: seq<string>, todo: seq<string>, p: Mac, m': Mac)
    requires 0 <= p.calls - (m.calls + Reads(m) + 1 + |names|) <= 1 && Asked(m, m.calls + Reads(m) + 1, names, p.first.Keys, todo)
    requires m'.first == p.first && m'.calls == p.calls + |todo| && SetTo(m.fates, p.calls, todo, m'.dns)
    requires forall svc :: svc in todo ==> svc in m.dns && m.dns[svc] != [LOCAL]
    ensures AllAsked(m, m', names, todo)
  {
  }

  lemma ReadWorks(m: Mac, lo: nat, hi: nat, names: seq<string>, given: set<string>, todo: seq<string>, svc: string)
    requires Asked(m, lo, names, given, todo) && AllWork(m.fates, lo, hi) && lo + |names| <= hi && svc in m.dns
    ensures svc in given && (m.dns[svc] == [LOCAL] || svc in todo)
  {
    var i :| 0 <= i < |names| && names[i] == svc;
    assert ReadOf(FateOf(m.fates, lo + i), m.dns, names[i], given, todo);
  }

  lemma SetWorks(fates: Fates, lo: nat, todo: seq<string>, dns: map<string, Servers>, svc: string)
    requires SetTo(fates, lo, todo, dns) && AllWork(fates, lo, lo + |todo|) && svc in todo
    ensures At(dns, svc) == Some([LOCAL])
  {
    var k :| 0 <= k < |todo| && todo[k] == svc;
    assert FateOf(fates, lo + k).Works?;
  }

  /** What is set, when nothing failed. */
  lemma AllDone(m: Mac, names: seq<string>, todo: seq<string>, p: Mac, e: Ending, m': Mac)
    requires Prepared(m, names, todo, false, p) && AllSet(p, todo, e, m') && e.Done?
    ensures forall svc :: svc in m.dns ==> m'.dns[svc] == [LOCAL] && svc in m'.first
  {
    forall svc | svc in m.dns ensures m'.dns[svc] == [LOCAL] && svc in m'.first {
      var i := m.calls + Reads(m) + 1;
      ReadWorks(m, i, p.calls, names, p.first.Keys, todo, svc);
      if svc in todo {
        SetWorks(m.fates, p.calls, todo, m'.dns, svc);
      }
    }
  }

  lemma TakenOver(m: Mac, names: seq<string>, todo: seq<string>, failed: bool, p: Mac, e: Ending, m': Mac)
    requires Inv(m) && Prepared(m, names, todo, failed, p) && AllSet(p, todo, e, m')
    ensures TakesOver(m, if e.Done? && failed then Failed else e, m')
  {
    InTwoHalves(m, names, todo, failed, p, e, m');
    if e.Done? && !failed {
      AllDone(m, names, todo, p, e, m');
    }
  }

  /** The same of a give-back: each of `tried` set in turn. */
  ghost predicate AllTried(m: Mac, m': Mac, tried: seq<Entry>) {
    var set_ := m.calls + Reads(m) + 1;
    set_ + |tried| <= m'.calls <= set_ + |tried| + 1
    && (forall e :: e in Saved(m.file) && e.svc in m.dns ==> e in tried)
    && SetBack(m.fates, set_, tried, m'.dns)
  }

  /** Anything else that changes services, by hand or by plugging. */
  ghost predicate Elsewhere(m: Mac, m': Mac) {
    m' == m.(dns := m'.dns) && forall svc :: svc in m'.dns ==> IsService(svc) && AreServers(m'.dns[svc])
  }

  datatype Action = TakingOver(e: Ending) | GivingBack(e: Ending) | Other

  ghost predicate Next(m: Mac, a: Action, m': Mac) {
    match a
    case TakingOver(e) => TakesOver(m, e, m')
    case GivingBack(e) => GivesBack(m, e, m')
    case Other => Elsewhere(m, m')
  }

  lemma {:induction false} LookupKnows(es: seq<Entry>, svc: string)
    requires AreEntries(es)
    ensures Lookup(es, svc).Some? ==> AreServers(Lookup(es, svc).value)
    decreases |es|
  {
    if es != [] && es[0].svc != svc {
      LookupKnows(es[1..], svc);
    }
  }

  lemma NextKeepsInv(m: Mac, a: Action, m': Mac)
    requires Inv(m) && Next(m, a, m')
    ensures Inv(m')
  {
    assert IsWord(LOCAL);
    if a.GivingBack? && m.file.Some? {
      ReadBackIsSavable(m.file.value);
      forall svc | svc in m.first ensures AreServers(m.first[svc]) {
        LookupKnows(Saved(m.file), svc);
      }
    }
  }

  ghost predicate Run(ms: seq<Mac>, acts: seq<Action>) {
    |ms| == |acts| + 1 && Inv(ms[0])
    && forall i {:trigger acts[i]} :: 0 <= i < |acts| ==> Next(ms[i], acts[i], ms[i + 1])
  }

  /** Over every run, with failures and crashes at every point: a service set to
      the resolver has its servers on disk, as they were when it was first seen. */
  lemma {:induction false} SwitchedAreSaved(ms: seq<Mac>, acts: seq<Action>, i: nat)
    requires Run(ms, acts) && i < |ms|
    ensures Inv(ms[i])
    ensures forall svc :: svc in ms[i].ours ==> Lookup(Saved(ms[i].file), svc) == At(ms[i].first, svc) != None
    decreases i
  {
    if i > 0 {
      SwitchedAreSaved(ms, acts, i - 1);
      NextKeepsInv(ms[i - 1], acts[i - 1], ms[i]);
    }
  }

  /** What is on disk for a service stays as first seen until the file is gone. */
  lemma {:induction false} NeverOverwritten(ms: seq<Mac>, acts: seq<Action>, i: nat, j: nat, svc: string)
    requires Run(ms, acts) && i <= j < |ms|
    requires svc in ms[i].first && forall k :: i < k <= j ==> ms[k].file.Some?
    ensures Lookup(Saved(ms[j].file), svc) == At(ms[j].first, svc) == Some(ms[i].first[svc])
    decreases j
  {
    SwitchedAreSaved(ms, acts, j);
    if i < j {
      NeverOverwritten(ms, acts, i, j - 1, svc);
      assert Next(ms[j - 1], acts[j - 1], ms[j]);
    }
  }

  lemma LookupAppend(es: seq<Entry>, e: Entry, svc: string)
    ensures Lookup(es + [e], svc) == if Lookup(es, svc).Some? || e.svc != svc then Lookup(es, svc) else Some(e.servers)
  {
    if es != [] {
      assert (es + [e])[1..] == es[1..] + [e];
      LookupAppend(es[1..], e, svc);
    }
  }

  lemma LookupAt(es: seq<Entry>, i: nat)
    requires Distinct(es) && i < |es|
    ensures Lookup(es, es[i].svc) == Some(es[i].servers)
  {
    if i > 0 {
      LookupAt(es[1..], i - 1);
    }
  }

  lemma LookupNone(es: seq<Entry>, svc: string)
    requires Lookup(es, svc).None?
    ensures forall i :: 0 <= i < |es| ==> es[i].svc != svc
  {
  }

  lemma {:induction false} LookupSome(es: seq<Entry>, svc: string) returns (i: nat)
    requires Lookup(es, svc).Some?
    ensures i < |es| && es[i].svc == svc
    decreases |es|
  {
    if es[0].svc == svc {
      i := 0;
    } else {
      i := LookupSome(es[1..], svc);
      i := i + 1;
    }
  }

  lemma FileIsFirst(m: Mac)
    requires Inv(m)
    ensures forall e :: e in Saved(m.file) ==> At(m.first, e.svc) == Some(e.servers)
  {
    var es := Saved(m.file);
    forall e | e in es ensures At(m.first, e.svc) == Some(e.servers) {
      var i :| 0 <= i < |es| && es[i] == e;
      LookupAt(es, i);
      assert Lookup(es, e.svc) == At(m.first, e.svc);
    }
  }

  /** The entries of the file put back, those tried that have their service. */
  ghost predicate PutIn(m: Mac, saved: seq<Entry>, tried: seq<Entry>, e: Ending, m': Mac) {
    m' == m.(dns := m'.dns, calls := m'.calls) && m'.dns.Keys == m.dns.Keys
    && (forall svc :: svc in m.dns ==> m'.dns[svc] == m.dns[svc] || Some(m'.dns[svc]) == At(m.first, svc))
    && (!e.Crashed? ==> m'.calls == m.calls + |tried| && (forall e :: e in saved && e.svc in m.dns ==> e in tried)
                        && SetBack(m.fates, m.calls, tried, m'.dns))
    && EndsBy(m, e, m')
  }

  lemma PutInWorks(m: Mac, saved: seq<Entry>, tried: seq<Entry>, e: Ending, m': Mac, svc: string)
    requires Inv(m) && saved == Saved(m.file) && PutIn(m, saved, tried, e, m') && e.Done? && svc in m.dns && svc in m.first
    ensures m'.dns[svc] == m.first[svc]
  {
    assert Lookup(saved, svc) == At(m.first, svc);
    var i := LookupSome(saved, svc);
    LookupAt(saved, i);
    assert saved[i] in tried;
    var k :| 0 <= k < |tried| && tried[k] == saved[i];
    assert FateOf(m.fates, m.calls + k).Works?;
  }

  /** The command that takes the file away, with effect or without. */
  function FileGone(m: Mac): Mac {
    if FateOf(m.fates, m.calls).Takes() then m.(file := None, first := map[], ours := {}, calls := m.calls + 1)
    else m.(calls := m.calls + 1)
  }

  function EndAfter(e: Ending, f: Fate): Ending {
    if f.Works? then e else if f.Dies? then Crashed else Failed
  }

  /** A give-back in its two halves: read and listed, then put in; and the file
      gone, if it came to that. */
  lemma GivenBack(m: Mac, m1: Mac, tried: seq<Entry>, e: Ending, m2: Mac, end: Ending, m': Mac)
    requires Inv(m) && m1 == m.(calls := m.calls + Reads(m) + 1) && AllWork(m.fates, m.calls, m1.calls) && m.file.Some?
    requires PutIn(m1, Saved(m.file), tried, e, m2)
    requires if !e.Done? then end == e && m' == m2
             else m' == FileGone(m2) && end == EndAfter(e, FateOf(m.fates, m2.calls))
    ensures GivesBack(m, end, m') && (!end.Crashed? ==> AllTried(m, m', tried))
  {
    Joined(m.fates, m.calls, m1.calls, m2.calls);
    Joined(m.fates, m.calls, m2.calls, m'.calls);
    if e.Done? {
      forall svc | svc in m.dns && svc in m.first ensures m2.dns[svc] == m.first[svc] {
        PutInWorks(m1, Saved(m.file), tried, e, m2, svc);
      }
    }
  }

  /** What is set back of the entries of the file that have their service: by the
      commands from the `lo`-th on, one each. */
  ghost predicate SetBack(fates: Fates, lo: nat, tried: seq<Entry>, dns: map<string, Servers>) {
    forall k :: 0 <= k < |tried| ==> !FateOf(fates, lo + k).Takes() || At(dns, tried[k].svc) == Some(tried[k].servers)
  }

  lemma SetBackMore(fates: Fates, lo: nat, saved: seq<Entry>, tried: seq<Entry>, dns: map<string, Servers>, e: Entry, dns': map<string, Servers>)
    requires Distinct(saved) && e in saved && (forall o :: o in tried ==> o in saved) && SetBack(fates, lo, tried, dns)
    requires dns' == if FateOf(fates, lo + |tried|).Takes() then dns[e.svc := e.servers] else dns
    ensures SetBack(fates, lo, tried + [e], dns')
  {
    forall k | 0 <= k < |tried| && tried[k].svc == e.svc ensures tried[k] == e {
      assert tried[k] in tried;
      SameEntry(saved, e, tried[k]);
    }
  }

  lemma SameEntry(es: seq<Entry>, a: Entry, b: Entry)
    requires Distinct(es) && a in es && b in es && a.svc == b.svc
    ensures a == b
  {
  }

  lemma WithoutLocalAreServers(servers: Servers)
    requires AreServers(servers)
    ensures AreServers(WithoutLocal(servers))
  {
  }

  // What is kept of a service's servers

  lemma {:induction false} WithoutLocalInOrder(servers: Servers, more: Servers)
    ensures WithoutLocal(servers + more) == WithoutLocal(servers) + WithoutLocal(more)
    decreases |servers|
  {
    if servers == [] {
      assert servers + more == more;
    } else {
      WithoutLocalInOrder(servers[1..], more);
      assert (servers + more)[1..] == servers[1..] + more;
    }
  }

  /** All but the resolver's own address, in order and with repeats; everything when
      that is not among them. */
  lemma {:induction false} WithoutLocalMeans(servers: Servers)
    ensures forall s :: s in WithoutLocal(servers) <==> s in servers && s != "127.0.0.1"
    ensures forall s :: WithoutLocal([s]) == if s == "127.0.0.1" then [] else [s]
    ensures "127.0.0.1" !in servers ==> WithoutLocal(servers) == servers
    decreases |servers|
  {
    if servers != [] {
      WithoutLocalMeans(servers[1..]);
      assert servers == [servers[0]] + servers[1..];
    }
    forall s ensures WithoutLocal([s]) == if s == "127.0.0.1" then [] else [s] {
      assert [s][1..] == [];
    }
  }

  /** From a take-over that is done, of a service the file did not know, to the
      first give-back that is: whatever happened in between, crashes and changes
      by hand too, the service, if it is still there, is back at the servers it
      had before the take-over, the resolver's own address aside. */
  lemma RestoredAsFound(ms: seq<Mac>, acts: seq<Action>, i: nat, j: nat, svc: string)
    requires Run(ms, acts) && i < j < |acts| && svc in ms[i].dns && svc in ms[j].dns
    requires acts[i].TakingOver? && acts[i].e.Done? && Lookup(Saved(ms[i].file), svc).None?
    requires acts[j].GivingBack? && acts[j].e.Done? && forall k :: i < k <= j ==> ms[k].file.Some?
    ensures forall s :: s in ms[j + 1].dns[svc] <==> s in ms[i].dns[svc] && s != "127.0.0.1"
    ensures "127.0.0.1" !in ms[i].dns[svc] ==> ms[j + 1].dns[svc] == ms[i].dns[svc]
  {
    assert Next(ms[i], acts[i], ms[i + 1]) && Next(ms[j], acts[j], ms[j + 1]);
    SwitchedAreSaved(ms, acts, i);
    NeverOverwritten(ms, acts, i + 1, j, svc);
    WithoutLocalMeans(ms[i].dns[svc]);
  }

  /** With nothing in between. */
  lemma TakenAndGivenBack(m: Mac, taken: Ending, m1: Mac, given: Ending, m2: Mac, svc: string)
    requires Inv(m) && TakesOver(m, taken, m1) && GivesBack(m1, given, m2) && taken.Done? && given.Done?
    requires svc in m.dns && Lookup(Saved(m.file), svc).None?
    ensures m1.dns[svc] == ["127.0.0.1"] && ("127.0.0.1" !in m.dns[svc] ==> m2.dns[svc] == m.dns[svc])
  {
    assert Lookup(Saved(m1.file), svc) == At(m1.first, svc);
    WithoutLocalMeans(m.dns[svc]);
  }

  /** What a command gave, if it worked. */
  datatype Got<T> = Got(value: T) | Not | Died

  class System {
    var file: Option<string>
    var dns: map<string, Servers>
    var calls: nat
    const fates: Fates
    ghost var first: map<string, Servers>
    ghost var ours: set<string>

    ghost function State(): Mac
      reads this
    {
      Mac(file, dns, first, ours, calls, fates)
    }

    /** The next command's fate. */
    method Command() returns (f: Fate)
      modifies this`calls
      ensures f == FateOf(fates, old(calls)) && calls == old(calls) + 1
    {
      f := FateOf(fates, calls);
      calls := calls + 1;
    }

    /** `load`: no file, no entries. */
    method Load() returns (r: Got<seq<Entry>>)
      modifies this`calls
      ensures Served(r, old(calls), calls) && calls == old(calls) + Reads(State())
      ensures r.Got? ==> r.value == Saved(file) && AreEntries(r.value)
    {
      if file.None? {
        return Got([]);
      }
      var f := Command();
      ReadBackIsSavable(file.value);
      r := if f.Works? then Got(ParseSaved(file.value)) else if f.Dies? then Died else Not;
    }

    /** It is got, not got or its like by the fates of the commands from `lo` on. */
    ghost predicate Served<T>(r: Got<T>, lo: nat, hi: nat) {
      lo <= hi && (r.Got? <==> AllWork(fates, lo, hi)) && (r.Died? <==> SomeDies(fates, lo, hi))
    }

    /** `-listallnetworkservices`, in some order. */
    method Services() returns (r: Got<seq<string>>)
      modifies this`calls
      ensures Served(r, old(calls), calls)
      ensures r.Got? ==> |r.value| == |dns| && forall svc :: svc in r.value <==> svc in dns
      ensures calls == old(calls) + 1
    {
      var f := Command();
      if !f.Works? {
        return if f.Dies? then Died else Not;
      }
      var names: seq<string> := [];
      var todo := dns.Keys;
      while todo != {}
        invariant todo <= dns.Keys && |names| + |todo| == |dns|
        invariant forall svc :: svc in dns <==> svc in names || svc in todo
        decreases |todo|
      {
        var svc :| svc in todo;
        todo := todo - {svc};
        names := names + [svc];
      }
      r := Got(names);
    }

    /** `-getdnsservers`. */
    method Get(svc: string) returns (r: Got<Servers>)
      requires svc in dns
      modifies this`calls
      ensures Served(r, old(calls), calls) && calls == old(calls) + 1
      ensures r.Got? ==> r.value == dns[svc]
    {
      var f := Command();
      r := if f.Works? then Got(dns[svc]) else if f.Dies? then Died else Not;
    }

    /** `-setdnsservers`: failed, it may have set them all the same. */
    method Put(svc: string, servers: Servers) returns (f: Fate)
      requires svc in dns
      modifies this`dns, this`calls
      ensures f == FateOf(fates, old(calls)) && calls == old(calls) + 1
      ensures dns == if f.Takes() then old(dns)[svc := servers] else old(dns)
    {
      f := Command();
      if f.Takes() {
        dns := dns[svc := servers];
      }
    }

    /** The file written whole or not at all. */
    method Write(saved: seq<Entry>, ghost given: map<string, Servers>) returns (f: Fate)
      requires AreEntries(saved) && Distinct(saved) && forall svc :: Lookup(saved, svc) == At(given, svc)
      modifies this`file, this`first, this`calls
      ensures f == FateOf(fates, old(calls)) && calls == old(calls) + 1
      ensures if f.Takes() then Saved(file) == saved && first == given else file == old(file) && first == old(first)
    {
      f := Command();
      if f.Takes() {
        file := Some(FormatSaved(saved));
        SavedRoundTrip(saved);
        first := given;
      }
    }

    /** The first half of `take_over`: what the file is to say, which services
        to switch, and whether a service could not be read. */
    method Survey(names: seq<string>, was: seq<Entry>)
      returns (died: bool, saved: seq<Entry>, changed: bool, todo: seq<string>, failed: bool, ghost given: map<string, Servers>)
      requires Inv(State()) && was == Saved(file) && AreEntries(was)
      requires forall svc :: svc in names ==> svc in dns
      modifies this`calls
      ensures State() == old(State()).(calls := calls)
      ensures Surveyed(old(State()), names, died, saved, changed, todo, failed, given, State())
    {
      died, saved, changed, todo, failed, given := false, was, false, [], false, first;
      ghost var m := State();
      for i := 0 to |names|
        invariant ToSave(m, saved, given, todo) && (!changed ==> given == m.first) && !died
        invariant calls == old(calls) + i && ReadSoFar(m, names, i, given.Keys, todo)
        invariant !SomeDies(fates, old(calls), calls)
        invariant !failed <==> AllWork(fates, old(calls), calls)
      {
        var svc := names[i];
        var now := Get(svc);
        if now.Died? {
          died := true;
          return;
        }
        if now.Not? {
          failed := true;
          ReadMore(m, names, i, given.Keys, todo, given.Keys, todo);
          continue;
        }
        ghost var saved1, given1, todo1 := saved, given, todo;
        assert Lookup(saved, svc) == At(given, svc);
        if Lookup(saved, svc).None? {
          saved := saved + [Entry(svc, WithoutLocal(now.value))];
          given := given[svc := WithoutLocal(now.value)];
          changed := true;
        }
        if now.value != [LOCAL] {
          todo := todo + [svc];
        }
        SaveMore(m, saved1, given1, todo1, svc, todo);
        ReadMore(m, names, i, given1.Keys, todo1, given.Keys, todo);
      }
    }

    /** As far as the file. */
    method Prepare() returns (e: Ending, names: seq<string>, todo: seq<string>, failed: bool)
      requires Inv(State())
      modifies this`file, this`first, this`calls
      ensures e.Done? ==> Prepared(old(State()), names, todo, failed, State())
      ensures !e.Done? ==> TakesOver(old(State()), e, State()) && (e.Failed? ==> NotBegun(old(State()), State()))
    {
      names, todo, failed := [], [], false;
      ghost var m := State();
      var was := Load();
      if !was.Got? {
        e := if was.Died? then Crashed else Failed;
        GivenUp(m, e, State());
        return;
      }
      var listed := Services();
      Joined(fates, m.calls, m.calls + Reads(m), calls);
      if !listed.Got? {
        e := if listed.Died? then Crashed else Failed;
        GivenUp(m, e, State());
        return;
      }
      names := listed.value;
      e, todo, failed := Record(names, was.value, m);
    }

    /** The services read, and written down. */
    method Record(names: seq<string>, was: seq<Entry>, ghost m: Mac) returns (e: Ending, todo: seq<string>, failed: bool)
      requires Inv(m) && State() == m.(calls := m.calls + Reads(m) + 1) && AllWork(m.fates, m.calls, calls)
      requires was == Saved(file) && AreEntries(was) && |names| == |dns| && forall svc :: svc in names <==> svc in dns
      modifies this`file, this`first, this`calls
      ensures e.Done? ==> Prepared(m, names, todo, failed, State())
      ensures !e.Done? ==> TakesOver(m, e, State()) && (e.Failed? ==> NotBegun(m, State()))
    {
      ghost var m1 := State();
      var died, saved, changed;
      ghost var given;
      died, saved, changed, todo, failed, given := Survey(names, was);
      ghost var m2 := State();
      e := Done(0);
      if died {
        Joined(fates, m.calls, m1.calls, m2.calls);
        GivenUp(m, Crashed, State());
        return Crashed, todo, failed;
      }
      if changed {
        var f := Write(saved, given);
        if !f.Works? {
          e := if f.Dies? then Crashed else Failed;
          NotWritten(m, m1, names, saved, changed, todo, failed, given, m2, e, State());
          return;
        }
      }
      SurveyIsPrepared(m, m1, names, saved, changed, todo, failed, given, m2, State());
    }

    /** `take_over`. The daemon may die wherever it waits. */
    method TakeOver() returns (e: Ending)
      requires Inv(State())
      modifies this
      ensures TakesOver(old(State()), e, State())
      ensures !e.Crashed? ==> NotBegun(old(State()), State()) || exists names, todo :: AllAsked(old(State()), State(), names, todo)
    {
      ghost var m := State();
      var names, todo, failed;
      e, names, todo, failed := Prepare();
      if !e.Done? {
        return;
      }
      ghost var p := State();
      var end := SetAll(todo);
      if !end.Crashed? {
        EachAsked(m, names, todo, p, State());
      }
      TakenOver(m, names, todo, failed, p, end, State());
      e := if end.Done? && failed then Failed else end;
    }

    /** Each of `todo` to the resolver; one that fails does not stop the rest. */
    method SetAll(todo: seq<string>) returns (e: Ending)
      requires forall svc :: svc in todo ==> svc in dns && svc in first
      requires ours <= first.Keys
      modifies this`dns, this`ours, this`calls
      ensures AllSet(old(State()), todo, e, State()) && (e.Done? ==> e.n == |todo|)
    {
      var n, failed := 0, false;
      for i := 0 to |todo|
        invariant dns.Keys == old(dns).Keys
        invariant forall svc :: svc in dns ==> dns[svc] == old(dns)[svc] || (dns[svc] == [LOCAL] && svc in ours)
        invariant old(ours) <= ours <= first.Keys
        invariant !failed ==> n == i
        invariant calls == old(calls) + i
        invariant SetTo(fates, old(calls), todo[..i], dns)
        invariant !SomeDies(fates, old(calls), calls)
        invariant !failed <==> AllWork(fates, old(calls), calls)
      {
        ours := ours + {todo[i]};
        var f := Put(todo[i], [LOCAL]);
        if f.Dies? {
          return Crashed;
        }
        if f.Works? {
          n := n + 1;
        } else {
          failed := true;
        }
      }
      assert todo[..|todo|] == todo;
      e := if failed then Failed else Done(n);
    }

    /** `give_back`: wherever it ends, the file is there while any service it names
        is not restored. */
    method GiveBack() returns (e: Ending)
      requires Inv(State())
      modifies this
      ensures GivesBack(old(State()), e, State())
      ensures !e.Crashed? && old(file).Some? ==> NotBegun(old(State()), State()) || exists tried :: AllTried(old(State()), State(), tried)
    {
      if file.None? {
        return Done(0);
      }
      ghost var m := State();
      var saved := Load();
      if !saved.Got? {
        return if saved.Died? then Crashed else Failed;
      }
      var present := Services();
      Joined(fates, m.calls, m.calls + 1, calls);
      if !present.Got? {
        return if present.Died? then Crashed else Failed;
      }
      ghost var m1 := State();
      FileIsFirst(m);
      var end, tried := PutBack(saved.value, present.value);
      ghost var m2 := State();
      e := end;
      if end.Done? {
        var f := Command();
        if f.Takes() {
          file := None;
          first, ours := map[], {};
        }
        e := EndAfter(end, f);
        assert State() == FileGone(m2);
      }
      GivenBack(m, m1, tried, end, m2, e, State());
    }

    /** Every entry whose service is there, set; one that fails does not stop the
        rest. */
    method PutBack(saved: seq<Entry>, present: seq<string>) returns (e: Ending, ghost tried: seq<Entry>)
      requires Distinct(saved) && (forall e :: e in saved ==> At(first, e.svc) == Some(e.servers))
      requires forall svc :: svc in present <==> svc in dns
      modifies this`dns, this`calls
      ensures PutIn(old(State()), saved, tried, e, State())
    {
      tried := [];
      var n, failed := 0, false;
      for i := 0 to |saved|
        invariant forall e :: e in tried ==> e in saved
        invariant forall k :: 0 <= k < i && saved[k].svc in dns ==> saved[k] in tried
        invariant calls == old(calls) + |tried|
        invariant SetBack(fates, old(calls), tried, dns)
        invariant dns.Keys == old(dns).Keys
        invariant forall svc :: svc in dns ==> dns[svc] == old(dns)[svc] || Some(dns[svc]) == At(first, svc)
        invariant !SomeDies(fates, old(calls), calls)
        invariant !failed <==> AllWork(fates, old(calls), calls)
      {
        if saved[i].svc !in present {
          continue;
        }
        assert saved[i] in saved;
        ghost var was := dns;
        var f := Put(saved[i].svc, saved[i].servers);
        if f.Dies? {
          return Crashed, tried;
        }
        SetBackMore(fates, old(calls), saved, tried, was, saved[i], dns);
        tried := tried + [saved[i]];
        if f.Works? {
          n := n + 1;
        } else {
          failed := true;
        }
      }
      e := if failed then Failed else Done(n);
    }
  }
}
