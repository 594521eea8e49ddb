/** Is a process a relay connector? */
module FleetClassify {
  // First whether its arguments name a relay entrypoint at all; then every plausible reading of its node options.
  // Paths, the file system and node's option table are given.

  import opened Wrappers

  /** Node's own options: those that run no script, those that take a value, and those that do not. */
  datatype Options = Options(noScript: set<string>, valued: set<string>, flags: set<string>)

  /** Where the script could start, under one reading of the options. */
  datatype Reading = At(index: nat) | NoScript

  predicate Dashed(a: string)
  {
    |a| > 0 && a[0] == '-'
  }

  /** The index of the first equals sign, or the length where there is none. */
  function Equals(a: string): (n: nat)
    ensures n <= |a|
  {
    if a == [] then 0 else if a[0] == '=' then 0 else 1 + Equals(a[1..])
  }

  /** An option with its value attached. */
  predicate Attached(a: string)
  {
    0 < Equals(a) < |a|
  }

  function NameOf(a: string): string
  {
    if Attached(a) then a[..Equals(a)] else a
  }

  predicate StartsWith(a: string, p: string)
  {
    |p| <= |a| && a[..|p|] == p
  }

  /** What one argument says of where reading goes on: here is the script, there is none, one on, two on, or either. */
  datatype Turn = Here | Ends | One | Two | Either | AfterDashes

  function TurnOf(o: Options, a: string): Turn
  {
    if a == "--" then AfterDashes
    else if !Dashed(a) || a == "-" then Here
    else if NameOf(a) in o.noScript then Ends
    else if Attached(a) then One
    else if a in o.valued then Two
    else if a in o.flags || StartsWith(a, "--no-") then One
    else Either
  }

  /** Every reading from an argument on, each as often as it is reached. */
  function Readings(o: Options, args: seq<string>, i: nat): seq<Reading>
    decreases |args| - i
  {
    if i >= |args| then [NoScript]
    else
      match TurnOf(o, args[i])
      case AfterDashes => if i + 1 < |args| then [At(i + 1)] else [NoScript]
      case Here => [At(i)]
      case Ends => [NoScript]
      case One => Readings(o, args, i + 1)
      case Two => Readings(o, args, i + 2)
      case Either => Readings(o, args, i + 1) + Readings(o, args, i + 2)
  }

  /** The one reading in which exactly these unlisted options take the next argument. */
  function Scan(o: Options, args: seq<string>, takes: set<nat>, i: nat): Reading
    decreases |args| - i
  {
    if i >= |args| then NoScript
    else
      match TurnOf(o, args[i])
      case AfterDashes => if i + 1 < |args| then At(i + 1) else NoScript
      case Here => At(i)
      case Ends => NoScript
      case One => Scan(o, args, takes, i + 1)
      case Two => Scan(o, args, takes, i + 2)
      case Either => if i in takes then Scan(o, args, takes, i + 2) else Scan(o, args, takes, i + 1)
  }

  lemma {:induction false} ScanIsReading(o: Options, args: seq<string>, takes: set<nat>, i: nat)
    ensures Scan(o, args, takes, i) in Readings(o, args, i)
    decreases |args| - i
  {
    if i < |args| {
      ScanIsReading(o, args, takes, i + 1);
      ScanIsReading(o, args, takes, i + 2);
    }
  }

  /** Options before the one read from are no matter. */
  lemma {:induction false} ScanIgnores(o: Options, args: seq<string>, takes: set<nat>, more: set<nat>, i: nat)
    requires forall k :: k >= i ==> (k in takes <==> k in more)
    ensures Scan(o, args, takes, i) == Scan(o, args, more, i)
    decreases |args| - i
  {
    if i < |args| {
      ScanIgnores(o, args, takes, more, i + 1);
      ScanIgnores(o, args, takes, more, i + 2);
    }
  }

  lemma {:induction false} ReadingIsScan(o: Options, args: seq<string>, i: nat, r: Reading) returns (takes: set<nat>)
    requires r in Readings(o, args, i)
    ensures Scan(o, args, takes, i) == r && forall k :: k in takes ==> k >= i
    decreases |args| - i
  {
    takes := {};
    if i < |args| {
      var turn := TurnOf(o, args[i]);
      if turn.One? || (turn.Either? && r in Readings(o, args, i + 1)) {
        takes := ReadingIsScan(o, args, i + 1, r);
      } else if turn.Two? {
        takes := ReadingIsScan(o, args, i + 2, r);
      } else if turn.Either? {
        var later := ReadingIsScan(o, args, i + 2, r);
        takes := later + {i};
        ScanIgnores(o, args, later, takes, i + 2);
      }
    }
  }

  /** The readings are exactly those in which some of the unlisted options take the next argument and the others do not. */
  lemma ReadingsExactly(o: Options, args: seq<string>, r: Reading)
    ensures r in Readings(o, args, 0) <==> exists takes :: Scan(o, args, takes, 0) == r
  {
    if r in Readings(o, args, 0) {
      var takes := ReadingIsScan(o, args, 0, r);
    }
    if exists takes :: Scan(o, args, takes, 0) == r {
      var takes :| Scan(o, args, takes, 0) == r;
      ScanIsReading(o, args, takes, 0);
    }
  }

  // ---------------------------------------------------------------- how many there are

  function Fib(n: nat): nat
  {
    if n < 2 then 1 else Fib(n - 1) + Fib(n - 2)
  }

  function Power2(n: nat): nat
  {
    if n == 0 then 1 else 2 * Power2(n - 1)
  }

  lemma {:induction false} FibDoubles(n: nat)
    ensures Fib(2 * n) >= Power2(n) && Fib(2 * n + 1) >= Power2(n)
  {
    if n > 0 {
      FibDoubles(n - 1);
      assert Fib(2 * n) == Fib(2 * n - 1) + Fib(2 * n - 2);
      assert Fib(2 * n + 1) == Fib(2 * n) + Fib(2 * n - 1);
    }
  }

  lemma {:induction false} UnlistedReadings(o: Options, args: seq<string>, i: nat)
    requires i <= |args| + 1 && forall k :: 0 <= k < |args| ==> TurnOf(o, args[k]) == Either
    ensures |Readings(o, args, i)| == if i <= |args| then Fib(|args| - i + 1) else 1
    decreases |args| + 1 - i
  {
    if i < |args| {
      UnlistedReadings(o, args, i + 1);
      UnlistedReadings(o, args, i + 2);
    }
  }

  /**
    * Each argument is read once, but the lists of readings are joined: of `n` options not listed the list has the
    * next Fibonacci number of readings, twice as many for every two options, though they all say the same.
    */
  lemma ReadingsPileUp(o: Options, args: seq<string>)
    requires forall k :: 0 <= k < |args| ==> TurnOf(o, args[k]) == Either
    ensures |Readings(o, args, 0)| == Fib(|args| + 1) >= Power2(|args| / 2)
    ensures forall r :: r in Readings(o, args, 0) ==> r == NoScript
  {
    UnlistedReadings(o, args, 0);
    FibDoubles(|args| / 2);
    FibMonotone(|args| / 2 * 2, |args| + 1);
    forall r | r in Readings(o, args, 0) ensures r == NoScript
    {
      var takes := ReadingIsScan(o, args, 0, r);
      ScanUnlisted(o, args, takes, 0);
    }
  }

  lemma {:induction false} FibMonotone(m: nat, n: nat)
    requires m <= n
    ensures Fib(m) <= Fib(n)
    decreases n
  {
    if m < n { FibMonotone(m, n - 1); }
  }

  lemma {:induction false} ScanUnlisted(o: Options, args: seq<string>, takes: set<nat>, i: nat)
    requires forall k :: 0 <= k < |args| ==> TurnOf(o, args[k]) == Either
    ensures Scan(o, args, takes, i) == NoScript
    decreases |args| - i
  {
    if i < |args| {
      ScanUnlisted(o, args, takes, i + 1);
      ScanUnlisted(o, args, takes, i + 2);
    }
  }

  // ---------------------------------------------------------------- read once per argument

  /** The readings from each argument, remembered. */
  class Reader {
    const o: Options
    const args: seq<string>
    var memo: map<nat, seq<Reading>>

    constructor (o: Options, args: seq<string>)
      ensures this.o == o && this.args == args && memo == map[] && Valid()
    {
      this.o, this.args, memo := o, args, map[];
    }

    ghost predicate Valid()
      reads this
    {
      (forall i :: i in memo ==> i <= |args| + 1 && memo[i] == Readings(o, args, i))
    }

    method ReadAt(i: nat) returns (r: seq<Reading>)
      requires Valid() && i <= |args| + 1
      modifies this`memo
      ensures Valid() && r == Readings(o, args, i) && i in memo
      decreases |args| + 1 - i
    {
      if i in memo { return memo[i]; }
      if i >= |args| {
        r := [NoScript];
      } else {
        match TurnOf(o, args[i])
        case AfterDashes => r := if i + 1 < |args| then [At(i + 1)] else [NoScript];
        case Here => r := [At(i)];
        case Ends => r := [NoScript];
        case One => r := ReadAt(i + 1);
        case Two => r := ReadAt(i + 2);
        case Either =>
          var one := ReadAt(i + 1);
          var two := ReadAt(i + 2);
          r := one + two;
      }
      memo := memo[i := r];
    }
  }

  /** No value twice. */
  predicate Once<T(==)>(s: seq<T>)
  {
    forall i, j :: 0 <= i < j < |s| ==> s[i] != s[j]
  }

  /** `readNodeOptions`: each reading once. */
  method ReadNodeOptions(o: Options, args: seq<string>) returns (readings: seq<Reading>)
    ensures Once(readings) && readings != [] && forall r :: r in readings <==> r in Readings(o, args, 0)
  {
    var reader := new Reader(o, args);
    var all := reader.ReadAt(0);
    SomeReading(o, args);
    readings := [];
    for i := 0 to |all|
      invariant Once(readings) && forall r :: r in readings <==> r in all[..i]
    {
      assert all[..i + 1] == all[..i] + [all[i]];
      if all[i] !in readings { readings := readings + [all[i]]; }
    }
    assert all[..|all|] == all && all[0] in readings;
  }

  lemma SomeReading(o: Options, args: seq<string>)
    ensures Readings(o, args, 0) != []
  {
    ScanIsReading(o, args, {}, 0);
  }

  // ---------------------------------------------------------------- the script, and the evidence

  datatype Package = Named(name: string) | Nameless | Unreadable

  /** The paths and the files as a process sees them. */
  datatype Files = Files(absolute: string -> Option<string>, isAbsolute: string -> bool, cwdRead: bool, isFile: string -> bool,
                         realpath: string -> Option<string>, shaped: string -> bool, package: string -> Package)

  const RELAY := "bot-relay-mcp"

  datatype Class = NotRelay | Connector(script: string) | Unclear

  /** What a script's file is, once it is known which file that is. */
  function ResolveScript(f: Files, script: string): Class
  {
    var actual := f.realpath(script);
    if actual.None? then Unclear
    else if !f.shaped(actual.value) then NotRelay
    else
      match f.package(actual.value)
      case Named(name) => if name == RELAY then Connector(actual.value) else NotRelay
      case _ => Unclear
  }

  /** Arguments joined by spaces, from one to another. */
  function Joined(args: seq<string>, head: string, s: nat, e: nat): string
    requires s <= e < |args|
    decreases e
  {
    if e == s then head else Joined(args, head, s, e - 1) + " " + args[e]
  }

  /** The existing files among the space-joined prefixes that start at an argument. */
  function Prefixes(f: Files, args: seq<string>, i: nat, n: nat): seq<string>
    requires i < |args| && i + n <= |args|
  {
    if n == 0 then []
    else
      var before, abs := Prefixes(f, args, i, n - 1), f.absolute(Joined(args, args[i], i, i + n - 1));
      if abs.Some? && f.isFile(abs.value) then before + [abs.value] else before
  }

  /** `classifyScript`: an exact argument is the script; otherwise the one joined prefix that is a file. */
  function ClassifyScript(f: Files, args: seq<string>, exact: bool, i: nat): Class
    requires i < |args|
  {
    if exact then
      var abs := f.absolute(args[i]);
      if abs.None? then Unclear else ResolveScript(f, abs.value)
    else
      var found := Prefixes(f, args, i, |args| - i);
      if |found| != 1 then Unclear else ResolveScript(f, found[0])
  }

  /** Where a span of arguments may begin: at an argument that is no option, or at an option's attached value. */
  function Head(a: string): Option<string>
  {
    if !Dashed(a) then Some(a) else if Equals(a) < |a| then Some(a[Equals(a) + 1..]) else None
  }

  predicate IsSpan(args: seq<string>, exact: bool, s: nat, e: nat)
  {
    s <= e < |args| && Head(args[s]).Some? && (exact ==> s == e)
  }

  function TextOf(args: seq<string>, s: nat, e: nat): string
    requires s <= e < |args| && Head(args[s]).Some?
  {
    Joined(args, Head(args[s]).value, s, e)
  }

  datatype SpanIs = Evidence | Covered | Nothing

  /** What a span is, as a file: the relay's entrypoint or one that cannot be ruled out, some other file, or no file. */
  function FileSpan(f: Files, text: string): SpanIs
  {
    var abs := f.absolute(text);
    if abs.None? || !f.isFile(abs.value) then Nothing
    else
      var actual := f.realpath(abs.value);
      if actual.Some? && f.shaped(actual.value) && (f.package(actual.value) == Named(RELAY) || !f.package(actual.value).Named?) then Evidence
      else if actual.None? && f.shaped(abs.value) then Evidence else Covered
  }

  /** What an unresolved span is: of the relay's shape, and moved, deleted, or relative to a directory that cannot be read. */
  predicate LostSpan(f: Files, text: string)
  {
    f.shaped(text) &&
    var abs := f.absolute(text);
    if abs.None? then !f.cwdRead else f.isAbsolute(text) && !f.isFile(abs.value)
  }

  ghost predicate FileEvidence(f: Files, args: seq<string>, exact: bool)
  {
    exists s: nat, e: nat :: IsSpan(args, exact, s, e) && FileSpan(f, TextOf(args, s, e)) == Evidence
  }

  /** Some other file has this argument among its own. */
  ghost predicate IsCovered(f: Files, args: seq<string>, exact: bool, t: nat)
  {
    exists s: nat, e: nat :: IsSpan(args, exact, s, e) && s <= t <= e && FileSpan(f, TextOf(args, s, e)) == Covered
  }

  ghost predicate LostEvidence(f: Files, args: seq<string>, exact: bool)
  {
    exists s: nat, e: nat :: IsSpan(args, exact, s, e) && LostSpan(f, TextOf(args, s, e)) && forall t :: s <= t <= e ==> !IsCovered(f, args, exact, t)
  }

  /** The arguments name a relay entrypoint. */
  ghost predicate Evident(f: Files, args: seq<string>, exact: bool)
  {
    FileEvidence(f, args, exact) || LostEvidence(f, args, exact)
  }

  // ---------------------------------------------------------------- the gate, over every span

  /** Every span, by where it begins and then by how long it is. */
  method Spans(args: seq<string>, exact: bool) returns (spans: seq<(nat, nat)>)
    ensures forall s: nat, e: nat :: (s, e) in spans <==> IsSpan(args, exact, s, e)
  {
    spans := [];
    for s := 0 to |args|
      invariant forall a: nat, e: nat :: (a, e) in spans <==> a < s && IsSpan(args, exact, a, e)
    {
      if Head(args[s]).Some? {
        var end := if exact then s + 1 else |args|;
        for e := s to end
          invariant forall a: nat, b: nat :: (a, b) in spans <==> (a < s && IsSpan(args, exact, a, b)) || (a == s && b < e && IsSpan(args, exact, a, b))
        {
          spans := spans + [(s, e)];
        }
      }
    }
  }

  /** A span, and what it is as a file. */
  predicate Is(f: Files, args: seq<string>, x: (nat, nat), what: SpanIs)
  {
    x.0 <= x.1 < |args| && Head(args[x.0]).Some? && FileSpan(f, TextOf(args, x.0, x.1)) == what
  }

  /** One of these spans is another file and has the argument. */
  predicate CoveredBy(f: Files, args: seq<string>, spans: seq<(nat, nat)>, t: nat)
  {
    exists x :: x in spans && x.0 <= t <= x.1 && Is(f, args, x, Covered)
  }

  lemma CoveredSnoc(f: Files, args: seq<string>, spans: seq<(nat, nat)>, x: (nat, nat), t: nat)
    ensures CoveredBy(f, args, spans + [x], t) <==> CoveredBy(f, args, spans, t) || (x.0 <= t <= x.1 && Is(f, args, x, Covered))
  {
    hide Is;
  }

  ghost predicate AllSpans(args: seq<string>, exact: bool, spans: seq<(nat, nat)>)
  {
    forall s: nat, e: nat :: (s, e) in spans <==> IsSpan(args, exact, s, e)
  }

  lemma CoveredByAll(f: Files, args: seq<string>, exact: bool, spans: seq<(nat, nat)>, t: nat)
    requires AllSpans(args, exact, spans)
    ensures CoveredBy(f, args, spans, t) <==> IsCovered(f, args, exact, t)
  {
    hide TextOf, FileSpan;
    if CoveredBy(f, args, spans, t) {
      var x :| x in spans && x.0 <= t <= x.1 && Is(f, args, x, Covered);
      assert (x.0, x.1) in spans;
    }
    if IsCovered(f, args, exact, t) {
      var s: nat, e: nat :| IsSpan(args, exact, s, e) && s <= t <= e && FileSpan(f, TextOf(args, s, e)) == Covered;
      assert (s, e) in spans && Is(f, args, (s, e), Covered);
    }
  }

  /** The first pass: evidence, or else the arguments other files have. */
  method FirstPass(f: Files, args: seq<string>, exact: bool, spans: seq<(nat, nat)>) returns (found: bool, covered: set<nat>)
    requires AllSpans(args, exact, spans)
    ensures found <==> FileEvidence(f, args, exact)
    ensures !found ==> forall t: nat :: t in covered <==> IsCovered(f, args, exact, t)
  {
    covered := {};
    hide TextOf, FileSpan, IsCovered;
    for i := 0 to |spans|
      invariant forall x :: x in spans[..i] ==> !Is(f, args, x, Evidence)
      invariant forall t: nat :: t in covered <==> CoveredBy(f, args, spans[..i], t)
    {
      var s, e := spans[i].0, spans[i].1;
      assert (s, e) in spans && IsSpan(args, exact, s, e);
      ghost var before := covered;
      assert spans[..i + 1] == spans[..i] + [spans[i]];
      var what := FileSpan(f, TextOf(args, s, e));
      if what == Evidence { return true, covered; }
      if what == Covered {
        for t := s to e + 1
          invariant forall u: nat :: u in covered <==> u in before || s <= u < t
        {
          covered := covered + {t};
        }
      }
      forall t: nat ensures CoveredBy(f, args, spans[..i + 1], t) <==> CoveredBy(f, args, spans[..i], t) || (s <= t <= e && what == Covered)
      {
        CoveredSnoc(f, args, spans[..i], spans[i], t);
      }
      hide CoveredBy;
    }
    assert spans[..|spans|] == spans;
    forall t: nat ensures CoveredBy(f, args, spans, t) <==> IsCovered(f, args, exact, t)
    {
      CoveredByAll(f, args, exact, spans, t);
    }
    assert forall s: nat, e: nat :: IsSpan(args, exact, s, e) ==> (s, e) in spans && !Is(f, args, (s, e), Evidence);
    return false, covered;
  }

  /** `relayEvidence`: first the spans that are files, then those that are not and share no argument with one. */
  method RelayEvidence(f: Files, args: seq<string>, exact: bool) returns (found: bool)
    ensures found <==> Evident(f, args, exact)
  {
    hide TextOf, FileSpan, LostSpan, IsCovered, IsSpan, FileEvidence;
    var spans := Spans(args, exact);
    var first, covered := FirstPass(f, args, exact, spans);
    if first { return true; }
    for i := 0 to |spans|
      invariant forall x :: x in spans[..i] ==> !Lost(f, args, exact, x)
    {
      var s, e := spans[i].0, spans[i].1;
      SpanFits(args, exact, s, e);
      assert spans[..i + 1] == spans[..i] + [spans[i]];
      if LostSpan(f, TextOf(args, s, e)) {
        var overlaps := false;
        for t := s to e + 1
          invariant overlaps <==> exists u :: s <= u < t && u in covered
        {
          overlaps := overlaps || t in covered;
        }
        if !overlaps {
          assert IsSpan(args, exact, s, e);
          return true;
        }
      }
    }
    assert spans[..|spans|] == spans;
    NoneLost(f, args, exact, spans);
    return false;
  }

  ghost predicate Lost(f: Files, args: seq<string>, exact: bool, x: (nat, nat))
  {
    x.0 <= x.1 < |args| && Head(args[x.0]).Some? && LostSpan(f, TextOf(args, x.0, x.1)) && forall t :: x.0 <= t <= x.1 ==> !IsCovered(f, args, exact, t)
  }

  lemma NoneLost(f: Files, args: seq<string>, exact: bool, spans: seq<(nat, nat)>)
    requires AllSpans(args, exact, spans) && forall x :: x in spans ==> !Lost(f, args, exact, x)
    ensures !LostEvidence(f, args, exact)
  {
    hide TextOf, LostSpan, IsCovered;
    forall s: nat, e: nat | IsSpan(args, exact, s, e) ensures !Lost(f, args, exact, (s, e))
    {
      assert (s, e) in spans;
    }
    assert forall s: nat, e: nat :: IsSpan(args, exact, s, e) ==> !Lost(f, args, exact, (s, e));
  }

  lemma SpanFits(args: seq<string>, exact: bool, s: nat, e: nat)
    requires IsSpan(args, exact, s, e)
    ensures s <= e < |args| && Head(args[s]).Some?
  {
  }

  // ---------------------------------------------------------------- the classification

  /** A process: whether it listens, whether it is node, its arguments, and whether they are exact or joined by spaces. */
  datatype View = View(listens: bool, node: bool, args: seq<string>, exact: bool)

  function ReadingClass(f: Files, v: View, r: Reading): Class
  {
    match r
    case NoScript => NotRelay
    case At(i) => if i < |v.args| then ClassifyScript(f, v.args, v.exact, i) else NotRelay
  }

  /** `classifyProcess`: the gate, then every reading. */
  method ClassifyProcess(f: Files, o: Options, v: View) returns (c: Class)
    ensures c == NotRelay <==> v.listens || !v.node || !Evident(f, v.args, v.exact)
    ensures forall script :: c == Connector(script) <==>
              !v.listens && v.node && Evident(f, v.args, v.exact) && forall r :: r in Readings(o, v.args, 0) ==> ReadingClass(f, v, r) == Connector(script)
  {
    hide Evident, Readings, ReadingClass;
    SomeReading(o, v.args);
    if v.listens { return NotRelay; }
    if !v.node { return NotRelay; }
    var evidence := RelayEvidence(f, v.args, v.exact);
    if !evidence { return NotRelay; }
    var readings := ReadNodeOptions(o, v.args);
    var first := ReadingClass(f, v, readings[0]);
    var alike := first.Connector?;
    for i := 0 to |readings|
      invariant alike <==> first.Connector? && forall k :: 0 <= k < i ==> ReadingClass(f, v, readings[k]) == first
    {
      alike := alike && ReadingClass(f, v, readings[i]) == first;
    }
    assert forall r :: r in readings ==> exists k :: 0 <= k < |readings| && readings[k] == r;
    return if alike then first else Unclear;
  }

  /** The gate sees the script: where a reading finds the relay's own script in an existing file, and its argument is no dashed one, there is evidence. */
  lemma GateSeesScript(f: Files, args: seq<string>, exact: bool, i: nat)
    requires i < |args| && !Dashed(args[i]) && ClassifyScript(f, args, exact, i).Connector?
    requires exact ==> f.absolute(args[i]).Some? && f.isFile(f.absolute(args[i]).value)
    ensures Evident(f, args, exact)
  {
    var e := i;
    if !exact {
      e := PrefixFound(f, args, i, |args| - i);
    }
    assert IsSpan(args, exact, i, e) && FileSpan(f, TextOf(args, i, e)) == Evidence;
  }

  lemma {:induction false} PrefixFound(f: Files, args: seq<string>, i: nat, n: nat) returns (e: nat)
    requires i < |args| && i + n <= |args| && |Prefixes(f, args, i, n)| == 1
    ensures i <= e < i + n && var abs := f.absolute(Joined(args, args[i], i, e)); abs.Some? && f.isFile(abs.value) && Prefixes(f, args, i, n)[0] == abs.value
  {
    var abs := f.absolute(Joined(args, args[i], i, i + n - 1));
    if abs.Some? && f.isFile(abs.value) {
      e := i + n - 1;
    } else {
      e := PrefixFound(f, args, i, n - 1);
    }
  }

  /** No span but the script's own, which the gate takes whole only from an undashed argument, is evidence. */
  ghost predicate OnlyScript(f: Files, args: seq<string>, exact: bool, i: nat)
    requires i < |args|
  {
    forall s: nat, e: nat :: IsSpan(args, exact, s, e) && (s != i || Dashed(args[i])) ==>
      FileSpan(f, TextOf(args, s, e)) != Evidence && !LostSpan(f, TextOf(args, s, e))
  }

  /**
    * Whatever the arguments: where a reading finds the relay's own script in an existing file and nothing else names
    * the relay, the gate sees it exactly when its argument does not begin with a dash.
    */
  lemma GateExactly(f: Files, args: seq<string>, exact: bool, i: nat)
    requires i < |args| && ClassifyScript(f, args, exact, i).Connector? && OnlyScript(f, args, exact, i)
    requires exact ==> f.absolute(args[i]).Some? && f.isFile(f.absolute(args[i]).value)
    ensures Evident(f, args, exact) <==> !Dashed(args[i])
  {
    if !Dashed(args[i]) {
      GateSeesScript(f, args, exact, i);
    } else {
      hide TextOf, FileSpan, LostSpan, IsSpan, IsCovered;
    }
  }

  /**
    * A script named by a dashed argument after the end of the options is not seen by the gate, whatever file it is:
    * a connector so started is taken for no relay.
    */
  lemma DashedScriptHidden(f: Files, o: Options, script: string, exact: bool)
    requires Dashed(script) && '=' !in script
    ensures Readings(o, ["--", script], 0) == [At(1)] && !Evident(f, ["--", script], exact)
  {
    var args := ["--", script];
    NoEquals(script);
    NoEquals("--");
    assert Head(args[0]).None? && Head(args[1]).None?;
    assert forall s: nat, e: nat :: !IsSpan(args, exact, s, e);
    hide IsSpan, TextOf, FileSpan, LostSpan, IsCovered;
  }

  lemma {:induction false} NoEquals(a: string)
    requires '=' !in a
    ensures Equals(a) == |a|
  {
    if a != [] { NoEquals(a[1..]); }
  }
}
