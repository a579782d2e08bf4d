/** The coverage manager: a cache in front of addr2line, with an index of lines by file. */
module CoverageManagers {
  import opened CoverageSets
  import opened Strings
  import Sequences

  /**
   * One line of addr2line output: empty; without a colon after its last slash, where the code indexes out of range; with
   * a number that does not parse; or `path:text` with the path's last component.
   */
  datatype Line = Skip | NoColon | Bad | Parsed(path: string, file: string, text: string, number: int)

  /** The resolver fails as a whole; or prints the lines of the first so many addresses or of all, and then perhaps more. */
  datatype Reply = Failed | Lines(printed: nat, surplus: seq<Line>)

  datatype Stop = Finished | GaveUp | Crashed
  datatype Resolved = Resolved(added: seq<nat>, stop: Stop)
  datatype Outcome = Mapped(lines: map<nat, string>) | Error | Panic

  function Location(l: Line): string
    requires l.Parsed?
  {
    l.file + ":" + l.text
  }

  // ---------------------------------------------------------------- reading a line

  /** The first word, its last path component, and what stands behind the colon. */
  function ParseLine(line: string): Line {
    if line == "" then Skip
    else
      var cleaned := Split(line, ' ')[0];
      var path := Split(cleaned, '/');
      var parts := Split(path[|path| - 1], ':');
      if |parts| < 2 then NoColon
      else match Atoi(parts[1])
        case None => Bad
        case Some(n) => Parsed(Split(cleaned, ':')[0], parts[0], parts[1], n)
  }

  /** A line panics exactly if it is not empty and the last component of its first word has no colon. */
  lemma NoColonExactly(line: string)
    ensures ParseLine(line).NoColon? <==>
            line != "" && var path := Split(Split(line, ' ')[0], '/'); ':' !in path[|path| - 1]
  {
    hide Split, Atoi;
    var path := Split(Split(line, ' ')[0], '/');
    SplitIsExact(path[|path| - 1], ':');
    CountsNone(path[|path| - 1], ':');
  }

  /** So a directory name with a space in it is enough, wherever the colon and the number come later. */
  lemma SpaceHidesColon(a: string, b: string)
    requires ' ' !in a && ':' !in a
    ensures ParseLine(a + " " + b).NoColon?
  {
    hide Split, Atoi;
    FirstPart(a, ' ', b);
    assert a + " " + b != "";
    SplitIsExact(a, '/');
    PartsOf(a, '/', ':');
    NoColonExactly(a + " " + b);
  }

  lemma {:induction false} PartsOf(s: string, sep: char, c: char)
    requires c !in s
    ensures forall k | 0 <= k < |Split(s, sep)| :: c !in Split(s, sep)[k]
  {
    if s != "" {
      PartsOf(s[1..], sep, c);
    }
  }

  // ---------------------------------------------------------------- what a call caches

  /** The addresses of cov that are not known, repeats included. */
  function Unknown(cov: seq<nat>, known: seq<nat>): (u: seq<nat>)
    ensures |u| <= |cov|
    ensures forall a :: a in u <==> a in cov && a !in known
  {
    if cov == [] then []
    else
      var n := |cov| - 1;
      assert cov == cov[..n] + [cov[n]];
      Unknown(cov[..n], known) + if cov[n] in known then [] else [cov[n]]
  }

  function Output(unknown: seq<nat>, res: nat -> Line, reply: Reply): (lines: seq<Line>)
    requires reply.Lines?
    ensures forall i | 0 <= i < |lines| && i < |unknown| :: lines[i] == res(unknown[i])
    ensures if reply.printed < |unknown| then |lines| == reply.printed else |lines| == |unknown| + |reply.surplus|
  {
    if reply.printed < |unknown| then seq(reply.printed, i requires 0 <= i < reply.printed => res(unknown[i]))
    else seq(|unknown|, i requires 0 <= i < |unknown| => res(unknown[i])) + reply.surplus
  }

  /** Every address that was asked for has its line in the answer, if there was anything to ask. */
  predicate AnswersAll(order: seq<nat>, cov: seq<nat>, reply: Reply) {
    reply.Lines? && reply.printed >= |Unknown(cov, order)|
  }

  /** Line i cannot be handled: its number does not parse, it has no colon, or it parses but there is no address for it. */
  predicate Stops(l: Line, i: nat, addresses: nat) {
    l.Bad? || l.NoColon? || (l.Parsed? && i >= addresses)
  }

  /** How many lines, from line i on, are handled. */
  function ReadTo(lines: seq<Line>, addresses: nat, i: nat): (r: nat)
    requires i <= |lines|
    ensures i <= r <= |lines| && forall j | i <= j < r :: !Stops(lines[j], j, addresses)
    ensures r < |lines| ==> Stops(lines[r], r, addresses)
    decreases |lines| - i
  {
    if i == |lines| || Stops(lines[i], i, addresses) then i else ReadTo(lines, addresses, i + 1)
  }

  function Min(a: nat, b: nat): nat { if a < b then a else b }

  /** The addresses whose lines are reached. */
  function Reached(order: seq<nat>, cov: seq<nat>, res: nat -> Line, reply: Reply): seq<nat> {
    var unknown := Unknown(cov, order);
    if unknown == [] || reply.Failed? then []
    else unknown[..Min(ReadTo(Output(unknown, res, reply), |unknown|, 0), |unknown|)]
  }

  /** What a call does to a cache that was filled in the given order. */
  function Resolve(order: seq<nat>, cov: seq<nat>, res: nat -> Line, reply: Reply): Resolved {
    var unknown, reached := Unknown(cov, order), Reached(order, cov, res, reply);
    var added := Cached(reached, res, |reached|);
    if unknown == [] then Resolved(added, Finished)
    else if reply.Failed? then Resolved(added, GaveUp)
    else
      var lines := Output(unknown, res, reply);
      var r := ReadTo(lines, |unknown|, 0);
      Resolved(added, if r == |lines| then Finished else if lines[r].Bad? then GaveUp else Crashed)
  }

  /** Line i is the first that cannot be handled. */
  ghost predicate FirstStop(lines: seq<Line>, addresses: nat, i: nat) {
    i < |lines| && Stops(lines[i], i, addresses) && forall j | 0 <= j < i :: !Stops(lines[j], j, addresses)
  }

  ghost predicate AsksNew(order: seq<nat>, cov: seq<nat>) {
    exists a :: a in cov && a !in order
  }

  /** The first line that cannot be handled is an unparsable number. */
  ghost predicate BadNumber(lines: seq<Line>, addresses: nat) {
    exists i: nat :: FirstStop(lines, addresses, i) && lines[i].Bad?
  }

  /** The first line that cannot be handled has no colon or no address. */
  ghost predicate OutOfRange(lines: seq<Line>, addresses: nat) {
    exists i: nat :: FirstStop(lines, addresses, i) && !lines[i].Bad?
  }

  /** When a call gives up, and when it panics. */
  lemma StopsExactly(order: seq<nat>, cov: seq<nat>, res: nat -> Line, reply: Reply)
    ensures var unknown, stop := Unknown(cov, order), Resolve(order, cov, res, reply).stop;
            && (stop == GaveUp <==> AsksNew(order, cov) && (reply.Failed? || BadNumber(Output(unknown, res, reply), |unknown|)))
            && (stop == Crashed <==> AsksNew(order, cov) && reply.Lines? && OutOfRange(Output(unknown, res, reply), |unknown|))
  {
    hide Unknown, Output, Stops;
    var unknown := Unknown(cov, order);
    assert AsksNew(order, cov) <==> unknown != [] by {
      SomethingNew(order, cov);
    }
    if reply.Lines? {
      var lines := Output(unknown, res, reply);
      var r := ReadTo(lines, |unknown|, 0);
      forall i: nat | FirstStop(lines, |unknown|, i)
        ensures i == r
      {
      }
      assert r < |lines| ==> FirstStop(lines, |unknown|, r);
    }
  }

  lemma SomethingNew(order: seq<nat>, cov: seq<nat>)
    ensures AsksNew(order, cov) <==> Unknown(cov, order) != []
  {
    if Unknown(cov, order) != [] {
      assert Unknown(cov, order)[0] in Unknown(cov, order);
    }
  }

  /** The addresses that get cached when the lines of `unknown` are read in order: those that parse, up to the first bad one. */
  function Cached(unknown: seq<nat>, res: nat -> Line, n: nat): seq<nat>
    requires n <= |unknown|
  {
    if n == 0 then []
    else
      var front := Cached(unknown, res, n - 1);
      if res(unknown[n - 1]).Parsed? then front + [unknown[n - 1]] else front
  }

  /** The line numbers recorded for a file when the addresses of `order` were cached in that order. */
  function LinesOf(order: seq<nat>, res: nat -> Line, path: string): seq<int> {
    if order == [] then []
    else
      var front, l := LinesOf(order[..|order| - 1], res, path), res(order[|order| - 1]);
      if l.Parsed? && l.path == path then front + [l.number] else front
  }

  lemma LinesOfAppend(order: seq<nat>, a: nat, res: nat -> Line, path: string)
    ensures LinesOf(order + [a], res, path) ==
            LinesOf(order, res, path) + if res(a).Parsed? && res(a).path == path then [res(a).number] else []
  {
    assert (order + [a])[..|order|] == order;
  }

  lemma {:induction false} CachedElements(unknown: seq<nat>, res: nat -> Line, n: nat)
    requires n <= |unknown|
    ensures forall a :: a in Cached(unknown, res, n) <==> a in unknown[..n] && res(a).Parsed?
  {
    if n > 0 {
      CachedElements(unknown, res, n - 1);
      assert unknown[..n] == unknown[..n - 1] + [unknown[n - 1]];
    }
  }

  lemma {:induction false} CachedCounts(unknown: seq<nat>, res: nat -> Line, n: nat, a: nat)
    requires n <= |unknown|
    ensures multiset(Cached(unknown, res, n))[a] == if res(a).Parsed? then multiset(unknown[..n])[a] else 0
  {
    if n > 0 {
      CachedCounts(unknown, res, n - 1, a);
      assert unknown[..n] == unknown[..n - 1] + [unknown[n - 1]];
    }
  }

  /** Without repetition means that nothing counts twice. */
  lemma {:induction false} OnceCounts(s: seq<nat>)
    ensures NoDuplicates(s) <==> forall a :: multiset(s)[a] <= 1
  {
    if s != [] {
      var n := |s| - 1;
      var front := s[..n];
      OnceCounts(front);
      assert s == front + [s[n]];
      if !NoDuplicates(s) && NoDuplicates(front) {
        var i :| 0 <= i < n && s[i] == s[n];
        assert front[i] in front;
        assert multiset(s)[s[n]] == multiset(front)[s[n]] + 1;
      } else if NoDuplicates(s) {
        assert s[n] !in front;
        assert forall i, j | 0 <= i < j < n :: front[i] == s[i] && front[j] == s[j];
      } else {
        var a :| multiset(front)[a] > 1;
        assert multiset(s)[a] > 1;
      }
    }
  }

  /** Order does not matter to the multiset of lines of a file. */
  lemma {:induction false} LinesPermute(a: seq<nat>, b: seq<nat>, res: nat -> Line, path: string)
    requires multiset(a) == multiset(b)
    ensures multiset(LinesOf(a, res, path)) == multiset(LinesOf(b, res, path))
  {
    if a == [] {
      assert |multiset(b)| == 0;
    } else {
      var i := Sequences.MatchLast(a, b);
      LinesPermute(a[..|a| - 1], b[..i] + b[i + 1..], res, path);
      LinesRemove(b, i, res, path);
    }
  }

  function LineBag(l: Line, path: string): multiset<int> {
    if l.Parsed? && l.path == path then multiset{l.number} else multiset{}
  }

  lemma LinesBagAppend(s: seq<nat>, a: nat, res: nat -> Line, path: string)
    ensures multiset(LinesOf(s + [a], res, path)) == multiset(LinesOf(s, res, path)) + LineBag(res(a), path)
  {
    LinesOfAppend(s, a, res, path);
  }

  lemma {:induction false} LinesRemove(s: seq<nat>, i: nat, res: nat -> Line, path: string)
    requires i < |s|
    ensures multiset(LinesOf(s, res, path)) == multiset(LinesOf(s[..i] + s[i + 1..], res, path)) + LineBag(res(s[i]), path)
  {
    hide LinesOf, LineBag;
    var n := |s| - 1;
    var front := s[..n];
    assert s == front + [s[n]];
    LinesBagAppend(front, s[n], res, path);
    if i == n {
      assert s[..i] + s[i + 1..] == front;
    } else {
      LinesRemove(front, i, res, path);
      var r := front[..i] + front[i + 1..];
      assert s[..i] + s[i + 1..] == r + [s[n]];
      LinesBagAppend(r, s[n], res, path);
    }
  }

  /** No resolvable address occurs twice. */
  ghost predicate AsksOnce(asked: seq<nat>, res: nat -> Line) {
    forall a :: res(a).Parsed? ==> multiset(asked)[a] <= 1
  }

  /** Cached are the resolvable ones, each as often as its line was reached; so none twice exactly if none was reached twice. */
  lemma CachedOnceExactly(order: seq<nat>, asked: seq<nat>, res: nat -> Line)
    requires forall a | a in asked :: a !in order
    ensures var added := Cached(asked, res, |asked|);
            && (forall a :: a in added <==> a in asked && res(a).Parsed?)
            && (NoDuplicates(order + added) <==> NoDuplicates(order) && AsksOnce(asked, res))
  {
    hide NoDuplicates, Cached;
    var added := Cached(asked, res, |asked|);
    assert asked[..|asked|] == asked;
    CachedElements(asked, res, |asked|);
    forall a: nat
      ensures multiset(order + added)[a] == multiset(order)[a] + if res(a).Parsed? then multiset(asked)[a] else 0
      ensures a in asked ==> multiset(order)[a] == 0
    {
      CachedCounts(asked, res, |asked|, a);
    }
    OnceCounts(order);
    OnceCounts(order + added);
    assert forall a :: a !in asked ==> multiset(asked)[a] == 0;
  }

  /** A request without repeats reaches nothing twice. */
  lemma {:induction false} DistinctRequest(order: seq<nat>, cov: seq<nat>, res: nat -> Line, reply: Reply)
    requires NoDuplicates(cov)
    ensures AsksOnce(Reached(order, cov, res, reply), res)
  {
    hide NoDuplicates, Output, ReadTo;
    var unknown: seq<nat> := Unknown(cov, order);
    var reached: seq<nat> := Reached(order, cov, res, reply);
    OnceCounts(cov);
    assert unknown == reached + unknown[|reached|..];
    forall a: nat
      ensures multiset(reached)[a] <= 1
    {
      UnknownCounts(cov, order, a);
    }
  }

  lemma {:induction false} UnknownCounts(cov: seq<nat>, known: seq<nat>, a: nat)
    ensures multiset(Unknown(cov, known))[a] == if a in known then 0 else multiset(cov)[a]
  {
    if cov != [] {
      var n := |cov| - 1;
      UnknownCounts(cov[..n], known, a);
      assert cov == cov[..n] + [cov[n]];
    }
  }

  lemma NothingCached(res: nat -> Line)
    ensures Cached([], res, 0) == []
  {
  }

  lemma {:induction false} CachedPrefix(unknown: seq<nat>, res: nat -> Line, n: nat)
    requires n <= |unknown|
    ensures Cached(unknown[..n], res, n) == Cached(unknown, res, n)
  {
    CachedSame(unknown, unknown[..n], res, n);
  }

  lemma {:induction false} CachedSame(a: seq<nat>, b: seq<nat>, res: nat -> Line, n: nat)
    requires n <= |a| && n <= |b| && forall k | 0 <= k < n :: a[k] == b[k]
    ensures Cached(a, res, n) == Cached(b, res, n)
  {
    if n > 0 {
      CachedSame(a, b, res, n - 1);
    }
  }

  /** The whole call: what is new in the cache, and when it holds nothing twice. */
  lemma CallOnceExactly(order: seq<nat>, cov: seq<nat>, res: nat -> Line, reply: Reply)
    ensures var resolved := Resolve(order, cov, res, reply);
            && (NoDuplicates(order + resolved.added) <==> NoDuplicates(order) && AsksOnce(Reached(order, cov, res, reply), res))
            && (NoDuplicates(cov) && NoDuplicates(order) ==> NoDuplicates(order + resolved.added))
            && (forall a | a in resolved.added :: a in cov && a !in order && res(a).Parsed?)
            && (forall a | a in cov && res(a).Parsed? :: a in order + resolved.added <==> a in order || a in Reached(order, cov, res, reply))
            && (resolved.stop == Finished && AnswersAll(order, cov, reply) ==> Reached(order, cov, res, reply) == Unknown(cov, order))
  {
    hide NoDuplicates, AsksOnce, Cached, ReadTo;
    var unknown, reached := Unknown(cov, order), Reached(order, cov, res, reply);
    assert forall a | a in reached :: a in unknown;
    CachedOnceExactly(order, reached, res);
    if NoDuplicates(cov) {
      DistinctRequest(order, cov, res, reply);
    }
  }

  class CoverageManager {
    var coverageCache: map<nat, string>
    var coverageInfoMap: map<string, seq<int>>
    /** The values of the history, oldest first; the source keys them by time. */
    var coverageHistory: seq<nat>
    var lastMaxCoverage: nat
    /** The addresses in the order in which they were cached. */
    ghost var order: seq<nat>

    /** Every cached entry is what the slow lookup would answer, and the index is the lines of the cached addresses, in order. */
    ghost predicate CacheAndIndex(res: nat -> Line)
      reads `coverageCache, `coverageInfoMap, `order
    {
      && coverageCache.Keys == Elements(order)
      && (forall a | a in coverageCache :: res(a).Parsed? && coverageCache[a] == Location(res(a)))
      && (forall path :: Indexed(path) == LinesOf(order, res, path))
    }

    ghost predicate Valid(res: nat -> Line)
      reads `coverageCache, `coverageInfoMap, `order, `lastMaxCoverage
    {
      CacheAndIndex(res) && |coverageCache| <= lastMaxCoverage
    }

    ghost function Indexed(path: string): seq<int>
      reads `coverageInfoMap
    {
      if path in coverageInfoMap then coverageInfoMap[path] else []
    }

    constructor ()
      ensures forall res :: Valid(res)
      ensures order == [] && lastMaxCoverage == 0
    {
      coverageCache, coverageInfoMap, coverageHistory, lastMaxCoverage := map[], map[], [], 0;
      order := [];
    }

    method RecordCoverageLine(path: string, number: int)
      modifies `coverageInfoMap
      ensures forall p :: Indexed(p) == old(Indexed(p)) + if p == path then [number] else []
    {
      if path !in coverageInfoMap {
        coverageInfoMap := coverageInfoMap[path := [number]];
      } else {
        coverageInfoMap := coverageInfoMap[path := coverageInfoMap[path] + [number]];
      }
    }

    /** The first loop: the addresses of cov that are not cached. */
    method FindUnknown(cov: seq<nat>) returns (unknown: seq<nat>)
      requires forall a :: a in coverageCache <==> a in order
      ensures unknown == Unknown(cov, order)
    {
      unknown := [];
      for i := 0 to |cov|
        invariant unknown == Unknown(cov[..i], order)
      {
        assert cov[..i + 1][..i] == cov[..i];
        if cov[i] !in coverageCache {
          unknown := unknown + [cov[i]];
        }
      }
      assert cov[..|cov|] == cov;
    }

    /** `convertAddresses`: the cache restricted to cov. */
    method ConvertAddresses(cov: seq<nat>) returns (lines: map<nat, string>)
      ensures lines.Keys == Elements(cov) * coverageCache.Keys
      ensures forall a | a in lines :: lines[a] == coverageCache[a]
    {
      lines := map[];
      for i := 0 to |cov|
        invariant lines.Keys == Elements(cov[..i]) * coverageCache.Keys
        invariant forall a | a in lines :: lines[a] == coverageCache[a]
      {
        assert cov[..i + 1] == cov[..i] + [cov[i]];
        if cov[i] in coverageCache {
          lines := lines[cov[i] := coverageCache[cov[i]]];
        }
      }
      assert cov[..|cov|] == cov;
    }

    /** Caches one parsed line. An address that is already cached is indexed a second time. */
    method CacheLine(a: nat, l: Line, ghost res: nat -> Line)
      requires l == res(a) && l.Parsed? && CacheAndIndex(res)
      modifies `coverageCache, `coverageInfoMap, `order
      ensures CacheAndIndex(res) && order == old(order) + [a]
      ensures |coverageCache| <= |old(coverageCache)| + 1
    {
      hide LinesOf;
      coverageCache := coverageCache[a := Location(l)];
      assert coverageCache.Keys == old(coverageCache.Keys) + {a};
      RecordCoverageLine(l.path, l.number);
      forall path
        ensures Indexed(path) == LinesOf(old(order) + [a], res, path)
      {
        LinesOfAppend(old(order), a, res, path);
      }
      order := order + [a];
    }

    /** Reads the lines that came back; what was read before one that cannot be handled stays cached. */
    method ReadLines(unknown: seq<nat>, lines: seq<Line>, ghost res: nat -> Line) returns (stop: Stop, ghost read: nat)
      requires CacheAndIndex(res) && forall i | 0 <= i < |unknown| && i < |lines| :: lines[i] == res(unknown[i])
      modifies `coverageCache, `coverageInfoMap, `order
      ensures CacheAndIndex(res) && |coverageCache| <= |old(coverageCache)| + Min(read, |unknown|)
      ensures read == ReadTo(lines, |unknown|, 0) && order == old(order) + Cached(unknown, res, Min(read, |unknown|))
      ensures stop == if read == |lines| then Finished else if lines[read].Bad? then GaveUp else Crashed
    {
      hide CacheAndIndex;
      for i := 0 to |lines|
        invariant CacheAndIndex(res) && |coverageCache| <= |old(coverageCache)| + Min(i, |unknown|)
        invariant order == old(order) + Cached(unknown, res, Min(i, |unknown|))
        invariant ReadTo(lines, |unknown|, 0) == ReadTo(lines, |unknown|, i)
      {
        match lines[i]
        case Skip =>
        case NoColon => return Crashed, i;
        case Bad => return GaveUp, i;
        case Parsed(_, _, _, _) =>
          if i >= |unknown| {
            return Crashed, i;
          }
          CacheLine(unknown[i], lines[i], res);
      }
      stop, read := Finished, |lines|;
    }

    /** Asks the resolver for the unknown addresses. */
    method ResolveUnknown(ghost cov: seq<nat>, unknown: seq<nat>, res: nat -> Line, reply: Reply) returns (stop: Stop)
      requires CacheAndIndex(res) && unknown == Unknown(cov, order)
      modifies `coverageCache, `coverageInfoMap, `order
      ensures CacheAndIndex(res) && |coverageCache| <= |old(coverageCache)| + |unknown|
      ensures var resolved := Resolve(old(order), cov, res, reply); stop == resolved.stop && order == old(order) + resolved.added
    {
      hide CacheAndIndex, Cached, Unknown, ReadTo;
      if |unknown| == 0 {
        NothingCached(res);
        return Finished;
      }
      if reply.Failed? {
        NothingCached(res);
        return GaveUp;
      }
      ghost var read;
      stop, read := ReadLines(unknown, Output(unknown, res, reply), res);
      CachedPrefix(unknown, res, Min(read, |unknown|));
    }

    /** What the agreement with the resolver says. */
    lemma AgreesEverywhere(res: nat -> Line)
      requires CacheAndIndex(res)
      ensures forall a :: a in coverageCache <==> a in order
      ensures forall a | a in coverageCache :: res(a).Parsed? && coverageCache[a] == Location(res(a))
    {
    }

    /**
     * `ProcessCoverageAddresses` with a resolver that answers address by address (`res`). The cache stays in agreement
     * with the resolver in every case, a panic included; addresses are added to it up to the first line that cannot be
     * handled. No address is ever cached twice exactly as long as no call reaches a resolvable one twice.
     */
    method ProcessCoverageAddresses(cov: seq<nat>, res: nat -> Line, reply: Reply) returns (r: Outcome)
      requires Valid(res)
      modifies this
      ensures Valid(res) && order == old(order) + Resolve(old(order), cov, res, reply).added
      ensures var stop := Resolve(old(order), cov, res, reply).stop;
              (r.Mapped? <==> stop == Finished) && (r.Error? <==> stop == GaveUp) && (r.Panic? <==> stop == Crashed)
      ensures NoDuplicates(order) <==> NoDuplicates(old(order)) && AsksOnce(Reached(old(order), cov, res, reply), res)
      ensures NoDuplicates(cov) && NoDuplicates(old(order)) ==> NoDuplicates(order)
      ensures r.Mapped? ==> forall a :: a in r.lines <==>
                a in cov && res(a).Parsed? && (a in old(order) || a in Reached(old(order), cov, res, reply))
      ensures r.Mapped? && AnswersAll(old(order), cov, reply) ==> forall a :: a in r.lines <==> a in cov && res(a).Parsed?
      ensures r.Mapped? ==> forall a | a in r.lines :: r.lines[a] == Location(res(a))
      ensures var sum, last := |Unknown(cov, old(order))| + |old(coverageCache)|, old(lastMaxCoverage);
              && lastMaxCoverage == (if sum > last then sum else last)
              && coverageHistory == old(coverageHistory) + if sum > last then [sum] else []
    {
      hide CacheAndIndex, NoDuplicates, AsksOnce, Resolve, Reached, Unknown, Location;
      AgreesEverywhere(res);
      var unknown := FindUnknown(cov);
      if lastMaxCoverage < |unknown| + |coverageCache| {
        lastMaxCoverage := |unknown| + |coverageCache|;
        coverageHistory := coverageHistory + [lastMaxCoverage];
      }
      CallOnceExactly(order, cov, res, reply);
      var stop := ResolveUnknown(cov, unknown, res, reply);
      if stop == GaveUp {
        return Error;
      }
      if stop == Crashed {
        return Panic;
      }
      AgreesEverywhere(res);
      var converted := ConvertAddresses(cov);
      r := Mapped(converted);
    }

    /**
     * Each file's lines are those of the cached addresses of that file, for any listing of them, exactly when no
     * address has been cached twice. An address twice in one request, and resolvable, is what breaks it.
     */
    lemma IndexAgreesExactly(res: nat -> Line, addresses: seq<nat>)
      requires Valid(res) && NoDuplicates(addresses) && Elements(addresses) == coverageCache.Keys
      ensures NoDuplicates(order) <==> forall path :: multiset(Indexed(path)) == multiset(LinesOf(addresses, res, path))
    {
      hide LinesOf;
      if NoDuplicates(order) {
        SetMultiset(order);
        SetMultiset(addresses);
        forall path
          ensures multiset(Indexed(path)) == multiset(LinesOf(addresses, res, path))
        {
          LinesPermute(order, addresses, res, path);
        }
      } else {
        var extra := Repeats(order, addresses);
        var path := res(extra[0]).path;
        LinesPermute(order, addresses + extra, res, path);
        MoreLines(addresses, extra, res, path);
        assert multiset(Indexed(path)) != multiset(LinesOf(addresses, res, path));
      }
    }
  }

  /** A list with the same elements as a repetition-free one is that list, some repeats, and the order. */
  lemma {:induction false} Repeats(s: seq<nat>, t: seq<nat>) returns (extra: seq<nat>)
    requires NoDuplicates(t) && Elements(s) == Elements(t)
    ensures multiset(s) == multiset(t + extra)
    ensures !NoDuplicates(s) ==> extra != []
    ensures forall x | x in extra :: x in s
    decreases |s|
  {
    if NoDuplicates(s) {
      SetMultiset(s);
      SetMultiset(t);
      assert t + [] == t;
      return [];
    }
    var i, j :| 0 <= i < j < |s| && s[i] == s[j];
    var r := s[..j] + s[j + 1..];
    assert forall k | 0 <= k < |s| && k != j :: s[k] == r[if k < j then k else k - 1];
    assert forall x :: x in s <==> x in r by {
      assert r[i] == s[j];
    }
    assert Elements(r) == Elements(s);
    var e := Repeats(r, t);
    extra := e + [s[j]];
    Sequences.RemoveAt(s, j);
    assert t + extra == t + e + [s[j]];
  }

  lemma {:induction false} MoreLines(t: seq<nat>, extra: seq<nat>, res: nat -> Line, path: string)
    ensures multiset(LinesOf(t, res, path)) <= multiset(LinesOf(t + extra, res, path))
    ensures extra != [] && res(extra[0]).Parsed? && res(extra[0]).path == path ==>
            |LinesOf(t + extra, res, path)| > |LinesOf(t, res, path)|
  {
    hide LinesOf;
    if extra == [] {
      assert t + extra == t;
    } else {
      var n := |extra| - 1;
      MoreLines(t, extra[..n], res, path);
      assert t + extra == t + extra[..n] + [extra[n]];
      LinesOfAppend(t + extra[..n], extra[n], res, path);
      if n == 0 {
        assert t + extra[..0] == t;
      }
    }
  }
}
