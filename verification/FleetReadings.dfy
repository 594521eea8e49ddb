/** What a process's arguments say. */
module FleetReadings {
  // The readings, the evidence and the script told of the arguments themselves: of option names, of words joined by
  // spaces, and of the files they name.

  import opened FleetClassify
  import opened Wrappers

  // ---------------------------------------------------------------- the options

  /** Neither an operand, nor the dash that stands for one, nor the end of the options. */
  predicate IsOption(a: string)
  {
    a != "" && a[0] == '-' && a != "-" && a != "--"
  }

  /** An option's name, before its first equals sign where its value is given with it. */
  ghost predicate Called(a: string, name: string, given: bool)
  {
    '=' !in name && if given then exists value: string :: a == name + "=" + value else a == name
  }

  /** An option goes on by one argument, or by two where it takes the next; one that node does not list, by either. */
  ghost predicate GoesOn(o: Options, a: string, n: nat)
  {
    IsOption(a) &&
    exists name, given ::
      Called(a, name, given) && name !in o.noScript &&
      if given then n == 1
      else if name in o.valued then n == 2
      else n == 1 || (n == 2 && name !in o.flags && !("--no-" <= name))
  }

  /** Reading stops: at the script, or where there will be none. */
  ghost predicate Stops(o: Options, args: seq<string>, i: nat, r: Reading)
  {
    if i >= |args| then r == NoScript
    else if args[i] == "--" then r == if i + 1 < |args| then At(i + 1) else NoScript
    else if !IsOption(args[i]) then r == At(i)
    else r == NoScript && exists name, given :: Called(args[i], name, given) && name in o.noScript
  }

  /** The arguments looked at in one reading, from `i` on. */
  ghost predicate ReadFrom(o: Options, args: seq<string>, i: nat, at: seq<nat>)
  {
    at != [] && at[0] == i &&
    forall k :: 0 <= k < |at| - 1 ==> at[k] < |args| && at[k] < at[k + 1] && GoesOn(o, args[at[k]], at[k + 1] - at[k])
  }

  lemma {:induction false} FirstEquals(a: string)
    ensures '=' !in a[..Equals(a)] && (Equals(a) < |a| ==> a[Equals(a)] == '=')
  {
    if a != "" && a[0] != '=' {
      FirstEquals(a[1..]);
      assert a[..Equals(a)] == [a[0]] + a[1..][..Equals(a[1..])];
    }
  }

  lemma {:induction false} EqualsOf(name: string, rest: string)
    requires '=' !in name && (rest == "" || rest[0] == '=')
    ensures Equals(name + rest) == |name|
  {
    if name == "" {
      assert name + rest == rest;
    } else {
      assert (name + rest)[1..] == name[1..] + rest;
      EqualsOf(name[1..], rest);
    }
  }

  lemma HasItsName(a: string)
    requires IsOption(a)
    ensures Called(a, NameOf(a), Attached(a))
  {
    FirstEquals(a);
    var n := Equals(a);
    assert a[..|a|] == a;
    if Attached(a) { assert a == a[..n] + "=" + a[n + 1..]; }
  }

  /** An option has one name, given with its value or not. */
  lemma CalledIs(a: string, name: string, given: bool)
    requires IsOption(a)
    ensures Called(a, name, given) <==> name == NameOf(a) && given == Attached(a)
  {
    HasItsName(a);
    if Called(a, name, given) {
      if given {
        var value: string :| a == name + "=" + value;
        assert a == name + ("=" + value);
        EqualsOf(name, "=" + value);
        assert a[..|name|] == name;
      } else {
        assert a == name + "";
        EqualsOf(name, "");
      }
    }
  }

  lemma TurnMeans(o: Options, a: string)
    ensures match TurnOf(o, a)
            case AfterDashes => a == "--"
            case Here => a != "--" && !IsOption(a)
            case Ends => IsOption(a) && (exists name, given :: Called(a, name, given) && name in o.noScript) && forall n :: !GoesOn(o, a, n)
            case One => IsOption(a) && forall n :: GoesOn(o, a, n) <==> n == 1
            case Two => IsOption(a) && forall n :: GoesOn(o, a, n) <==> n == 2
            case Either => IsOption(a) && forall n :: GoesOn(o, a, n) <==> n == 1 || n == 2
    ensures IsOption(a) && !TurnOf(o, a).Ends? ==> forall name, given :: Called(a, name, given) ==> name !in o.noScript
  {
    if IsOption(a) {
      forall name, given ensures Called(a, name, given) <==> name == NameOf(a) && given == Attached(a) { CalledIs(a, name, given); }
      assert Called(a, NameOf(a), Attached(a));
      hide Called, Equals;
    }
  }

  lemma Onward(o: Options, args: seq<string>, i: nat, n: nat, at: seq<nat>)
    requires i < |args| && 0 < n && GoesOn(o, args[i], n) && ReadFrom(o, args, i + n, at)
    ensures ReadFrom(o, args, i, [i] + at)
  {
    hide GoesOn;
    var all := [i] + at;
    forall k | 0 <= k < |all| - 1 ensures all[k] < |args| && all[k] < all[k + 1] && GoesOn(o, args[all[k]], all[k + 1] - all[k])
    {
      if k > 0 { assert all[k] == at[k - 1] && all[k + 1] == at[k]; }
    }
  }

  lemma {:induction false} ReadingIsRead(o: Options, args: seq<string>, i: nat, r: Reading) returns (at: seq<nat>)
    requires r in Readings(o, args, i)
    ensures ReadFrom(o, args, i, at) && Stops(o, args, at[|at| - 1], r)
    decreases |args| - i
  {
    at := [i];
    if i < |args| {
      TurnMeans(o, args[i]);
      var turn := TurnOf(o, args[i]);
      hide TurnOf, IsOption, GoesOn, Called;
      if turn.One? || (turn.Either? && r in Readings(o, args, i + 1)) {
        at := ReadingIsRead(o, args, i + 1, r);
        Onward(o, args, i, 1, at);
        at := [i] + at;
      } else if turn.Two? || turn.Either? {
        at := ReadingIsRead(o, args, i + 2, r);
        Onward(o, args, i, 2, at);
        at := [i] + at;
      }
    }
  }

  lemma RestRead(o: Options, args: seq<string>, i: nat, at: seq<nat>)
    requires ReadFrom(o, args, i, at) && |at| > 1
    ensures i < |args| && i < at[1] && GoesOn(o, args[i], at[1] - i) && ReadFrom(o, args, at[1], at[1..]) && at[1..][|at| - 2] == at[|at| - 1]
  {
    assert at[0] < |args| && at[0] < at[0 + 1] && GoesOn(o, args[at[0]], at[0 + 1] - at[0]);
    hide GoesOn;
    var rest := at[1..];
    forall k | 0 <= k < |rest| - 1 ensures rest[k] < |args| && rest[k] < rest[k + 1] && GoesOn(o, args[rest[k]], rest[k + 1] - rest[k])
    {
      assert rest[k] == at[k + 1] && rest[k + 1] == at[k + 1 + 1];
    }
  }

  lemma StopIsReading(o: Options, args: seq<string>, i: nat, r: Reading)
    requires Stops(o, args, i, r)
    ensures r in Readings(o, args, i)
  {
    if i < |args| { TurnMeans(o, args[i]); }
    hide TurnOf, IsOption, GoesOn, Called;
  }

  lemma OnIsReading(o: Options, args: seq<string>, i: nat, n: nat, r: Reading)
    requires i < |args| && GoesOn(o, args[i], n) && r in Readings(o, args, i + n)
    ensures r in Readings(o, args, i)
  {
    TurnMeans(o, args[i]);
    assert n == 1 || n == 2;
    hide TurnOf, GoesOn, Called;
  }

  lemma {:induction false} ReadIsReading(o: Options, args: seq<string>, i: nat, r: Reading, at: seq<nat>)
    requires ReadFrom(o, args, i, at) && Stops(o, args, at[|at| - 1], r)
    ensures r in Readings(o, args, i)
    decreases |at|
  {
    if |at| == 1 {
      StopIsReading(o, args, i, r);
    } else {
      RestRead(o, args, i, at);
      hide *;
      ReadIsReading(o, args, at[1], r, at[1..]);
      OnIsReading(o, args, i, at[1] - i, r);
    }
  }

  ghost predicate ReadAs(o: Options, args: seq<string>, r: Reading)
  {
    exists at :: ReadFrom(o, args, 0, at) && Stops(o, args, at[|at| - 1], r)
  }

  /** The readings are where reading may stop: option after option from the first argument on, each by its own count. */
  lemma ReadExactly(o: Options, args: seq<string>, r: Reading)
    ensures r in Readings(o, args, 0) <==> ReadAs(o, args, r)
  {
    if r in Readings(o, args, 0) { var at := ReadingIsRead(o, args, 0, r); }
    if at :| ReadFrom(o, args, 0, at) && Stops(o, args, at[|at| - 1], r) { ReadIsReading(o, args, 0, r, at); }
  }

  // ---------------------------------------------------------------- the text of arguments

  /** Words with a space between each and the next. */
  function Words(ws: seq<string>): string
  {
    if ws == [] then "" else if |ws| == 1 then ws[0] else ws[0] + " " + Words(ws[1..])
  }

  /** What a path in an argument would begin with: the argument, or an option's value, which its first equals sign gives. */
  ghost predicate Begins(a: string, head: string)
  {
    if a != "" && a[0] == '-' then exists name: string :: '=' !in name && a == name + "=" + head else head == a
  }

  /** These arguments, the first from its path on, are this text; exact arguments are not joined. */
  ghost predicate Says(args: seq<string>, exact: bool, s: nat, e: nat, text: string)
  {
    s <= e < |args| && (exact ==> s == e) && exists head :: Begins(args[s], head) && text == Words([head] + args[s + 1..e + 1])
  }

  lemma {:induction false} WordsMore(ws: seq<string>, w: string)
    requires ws != []
    ensures Words(ws + [w]) == Words(ws) + " " + w
  {
    if |ws| == 1 {
      assert (ws + [w])[1..] == [w];
    } else {
      assert (ws + [w])[1..] == ws[1..] + [w];
      WordsMore(ws[1..], w);
      assert ws[0] + " " + (Words(ws[1..]) + " " + w) == ws[0] + " " + Words(ws[1..]) + " " + w;
    }
  }

  lemma {:induction false} JoinedIs(args: seq<string>, head: string, s: nat, e: nat)
    requires s <= e < |args|
    ensures Joined(args, head, s, e) == Words([head] + args[s + 1..e + 1])
    decreases e
  {
    if e == s {
      assert [head] + args[s + 1..e + 1] == [head];
    } else {
      JoinedIs(args, head, s, e - 1);
      assert [head] + args[s + 1..e + 1] == ([head] + args[s + 1..e]) + [args[e]];
      WordsMore([head] + args[s + 1..e], args[e]);
    }
  }

  lemma BeginsIs(a: string, head: string)
    ensures Begins(a, head) <==> Head(a) == Some(head)
  {
    FirstEquals(a);
    var n := Equals(a);
    if a != "" && a[0] == '-' {
      if n < |a| {
        assert a == a[..n] + "=" + a[n + 1..];
        assert Begins(a, a[n + 1..]);
      }
      if name: string :| '=' !in name && a == name + "=" + head {
        assert a == name + ("=" + head);
        EqualsOf(name, "=" + head);
        assert a[|name| + 1..] == head;
      }
    }
  }

  lemma SaysIs(args: seq<string>, exact: bool, s: nat, e: nat, text: string)
    ensures Says(args, exact, s, e, text) <==> IsSpan(args, exact, s, e) && text == TextOf(args, s, e)
  {
    if s <= e < |args| {
      forall head ensures Begins(args[s], head) <==> Head(args[s]) == Some(head) { BeginsIs(args[s], head); }
      forall head ensures Joined(args, head, s, e) == Words([head] + args[s + 1..e + 1]) { JoinedIs(args, head, s, e); }
      hide Begins, Head, Joined, Words;
      if Head(args[s]).Some? {
        var head := Head(args[s]).value;
        assert Joined(args, head, s, e) == Words([head] + args[s + 1..e + 1]);
      }
    }
  }

  // ---------------------------------------------------------------- the evidence

  predicate IsFile(f: Files, text: string, abs: string)
  {
    f.absolute(text) == Some(abs) && f.isFile(abs)
  }

  /** The file cannot be ruled out: where it leads is in an entrypoint's place and in no other package than the relay's. */
  ghost predicate MayBeRelay(f: Files, abs: string)
  {
    match f.realpath(abs)
    case Some(p) => f.shaped(p) && forall name :: f.package(p) == Named(name) ==> name == "bot-relay-mcp"
    case None => f.shaped(abs)
  }

  ghost predicate ARelay(f: Files, args: seq<string>, exact: bool)
  {
    exists s: nat, e: nat, text, abs :: Says(args, exact, s, e, text) && IsFile(f, text, abs) && MayBeRelay(f, abs)
  }

  /** The argument is part of some other file's name. */
  ghost predicate Others(f: Files, args: seq<string>, exact: bool, t: nat)
  {
    exists s: nat, e: nat, text, abs :: Says(args, exact, s, e, text) && s <= t <= e && IsFile(f, text, abs) && !MayBeRelay(f, abs)
  }

  /** An entrypoint's name with nothing there, or nothing to be seen, and no part of it in another file's name. */
  ghost predicate Gone(f: Files, args: seq<string>, exact: bool)
  {
    exists s: nat, e: nat, text ::
      Says(args, exact, s, e, text) && f.shaped(text) && (forall t :: s <= t <= e ==> !Others(f, args, exact, t)) &&
      match f.absolute(text)
      case Some(abs) => f.isAbsolute(text) && !f.isFile(abs)
      case None => !f.cwdRead
  }

  lemma SpanMeans(f: Files, text: string)
    ensures FileSpan(f, text) == Evidence <==> exists abs :: IsFile(f, text, abs) && MayBeRelay(f, abs)
    ensures FileSpan(f, text) == Covered <==> exists abs :: IsFile(f, text, abs) && !MayBeRelay(f, abs)
  {
    if f.absolute(text).Some? {
      var abs := f.absolute(text).value;
      assert IsFile(f, text, abs) <==> f.isFile(abs);
      if f.realpath(abs).Some? {
        var p := f.realpath(abs).value;
        assert f.package(p).Named? ==> f.package(p) == Named(f.package(p).name);
      }
    }
  }

  lemma OthersIs(f: Files, args: seq<string>, exact: bool, t: nat)
    ensures Others(f, args, exact, t) <==> IsCovered(f, args, exact, t)
  {
    hide Says, Head, TextOf, FileSpan, IsFile, MayBeRelay;
    if IsCovered(f, args, exact, t) {
      var s: nat, e: nat :| IsSpan(args, exact, s, e) && s <= t <= e && FileSpan(f, TextOf(args, s, e)) == Covered;
      SaysIs(args, exact, s, e, TextOf(args, s, e));
      SpanMeans(f, TextOf(args, s, e));
    }
    if s: nat, e: nat, text, abs :| Says(args, exact, s, e, text) && s <= t <= e && IsFile(f, text, abs) && !MayBeRelay(f, abs) {
      SaysIs(args, exact, s, e, text);
      SpanMeans(f, text);
    }
  }

  lemma ARelayIs(f: Files, args: seq<string>, exact: bool)
    ensures ARelay(f, args, exact) <==> FileEvidence(f, args, exact)
  {
    hide Says, Head, TextOf, FileSpan, IsFile, MayBeRelay;
    if FileEvidence(f, args, exact) {
      var s: nat, e: nat :| IsSpan(args, exact, s, e) && FileSpan(f, TextOf(args, s, e)) == Evidence;
      SaysIs(args, exact, s, e, TextOf(args, s, e));
      SpanMeans(f, TextOf(args, s, e));
    }
    if s: nat, e: nat, text, abs :| Says(args, exact, s, e, text) && IsFile(f, text, abs) && MayBeRelay(f, abs) {
      SaysIs(args, exact, s, e, text);
      SpanMeans(f, text);
    }
  }

  lemma LostMeans(f: Files, text: string)
    ensures LostSpan(f, text) <==> f.shaped(text) && match f.absolute(text)
                                                     case Some(abs) => f.isAbsolute(text) && !f.isFile(abs)
                                                     case None => !f.cwdRead
  {
  }

  lemma GoneIs(f: Files, args: seq<string>, exact: bool)
    ensures Gone(f, args, exact) <==> LostEvidence(f, args, exact)
  {
    forall t: nat ensures Others(f, args, exact, t) <==> IsCovered(f, args, exact, t) { OthersIs(f, args, exact, t); }
    forall text ensures LostSpan(f, text) <==> f.shaped(text) && match f.absolute(text)
                                                                  case Some(abs) => f.isAbsolute(text) && !f.isFile(abs)
                                                                  case None => !f.cwdRead
    {
      LostMeans(f, text);
    }
    hide Says, Head, TextOf, Others, IsCovered, LostSpan;
    if LostEvidence(f, args, exact) {
      var s: nat, e: nat :| IsSpan(args, exact, s, e) && LostSpan(f, TextOf(args, s, e)) && forall t :: s <= t <= e ==> !IsCovered(f, args, exact, t);
      SaysIs(args, exact, s, e, TextOf(args, s, e));
      assert forall t :: s <= t <= e ==> !Others(f, args, exact, t);
    }
    if Gone(f, args, exact) {
      var s: nat, e: nat, text :|
        Says(args, exact, s, e, text) && f.shaped(text) && (forall t :: s <= t <= e ==> !Others(f, args, exact, t)) &&
        match f.absolute(text)
        case Some(abs) => f.isAbsolute(text) && !f.isFile(abs)
        case None => !f.cwdRead;
      SaysIs(args, exact, s, e, text);
      assert forall t :: s <= t <= e ==> !IsCovered(f, args, exact, t);
    }
  }

  /**
    * The gate: among the texts of the arguments some file may be the relay's entrypoint, or some entrypoint's name leads
    * nowhere, or nowhere to be seen, and shares no argument with the name of another file.
    */
  lemma EvidentExactly(f: Files, args: seq<string>, exact: bool)
    ensures Evident(f, args, exact) <==> ARelay(f, args, exact) || Gone(f, args, exact)
  {
    ARelayIs(f, args, exact);
    GoneIs(f, args, exact);
    hide ARelay, Gone, FileEvidence, LostEvidence;
  }

  // ---------------------------------------------------------------- the script

  /** The arguments from `i` to `e`, joined, are the name of that file. */
  predicate FileAt(f: Files, args: seq<string>, i: nat, e: nat, abs: string)
  {
    i <= e < |args| && IsFile(f, Words(args[i..e + 1]), abs)
  }

  /** Of the joined texts from `i` on that end before `to`, this is the one that is a file. */
  ghost predicate OneFile(f: Files, args: seq<string>, i: nat, to: nat, e: nat, abs: string)
  {
    e < to && FileAt(f, args, i, e, abs) && forall d: nat, x :: d < to && FileAt(f, args, i, d, x) ==> d == e
  }

  ghost predicate NoFile(f: Files, args: seq<string>, i: nat, to: nat)
  {
    forall d: nat, x :: d < to ==> !FileAt(f, args, i, d, x)
  }

  /** The file the script's argument is: the argument itself, or else the one file among the joined texts from it on. */
  ghost predicate ScriptFile(f: Files, args: seq<string>, exact: bool, i: nat, abs: string)
    requires i < |args|
  {
    if exact then f.absolute(args[i]) == Some(abs) else exists e: nat :: OneFile(f, args, i, |args|, e, abs)
  }

  lemma JoinedFrom(f: Files, args: seq<string>, i: nat, e: nat)
    requires i <= e < |args|
    ensures var at := f.absolute(Joined(args, args[i], i, e));
            forall abs :: FileAt(f, args, i, e, abs) <==> at == Some(abs) && f.isFile(abs)
  {
    JoinedIs(args, args[i], i, e);
    assert [args[i]] + args[i + 1..e + 1] == args[i..e + 1];
  }

  /** What one more text changes. */
  lemma LastFile(f: Files, args: seq<string>, i: nat, m: nat, n: nat, at: Option<string>, abs: string)
    requires n == m + 1 && forall x :: FileAt(f, args, i, m, x) <==> at == Some(x)
    ensures NoFile(f, args, i, n) <==> NoFile(f, args, i, m) && at.None?
    ensures (exists e: nat :: OneFile(f, args, i, n, e, abs)) <==>
            if at.Some? then at.value == abs && NoFile(f, args, i, m) else exists e: nat :: OneFile(f, args, i, m, e, abs)
  {
    hide FileAt;
    if at.Some? { assert FileAt(f, args, i, m, at.value); }
    if e: nat :| OneFile(f, args, i, n, e, abs) {
      if e == m { assert FileAt(f, args, i, m, abs); } else { assert OneFile(f, args, i, m, e, abs); }
    }
    if at == Some(abs) && NoFile(f, args, i, m) { assert OneFile(f, args, i, n, m, abs); }
    if at.None? {
      if e: nat :| OneFile(f, args, i, m, e, abs) { assert OneFile(f, args, i, n, e, abs); }
    }
  }

  lemma {:induction false} PrefixesOne(f: Files, args: seq<string>, i: nat, n: nat, to: nat, abs: string)
    requires i < |args| && i + n == to <= |args|
    ensures Prefixes(f, args, i, n) == [] <==> NoFile(f, args, i, to)
    ensures Prefixes(f, args, i, n) == [abs] <==> exists e: nat :: OneFile(f, args, i, to, e, abs)
  {
    if n > 0 {
      var m := i + n - 1;
      PrefixesOne(f, args, i, n - 1, m, abs);
      JoinedFrom(f, args, i, m);
      var before, at := Prefixes(f, args, i, n - 1), f.absolute(Joined(args, args[i], i, m));
      var file := if at.Some? && f.isFile(at.value) then at else None;
      LastFile(f, args, i, m, to, file, abs);
      hide OneFile, NoFile, FileAt, Joined;
      assert Prefixes(f, args, i, n) == if file.Some? then before + [file.value] else before;
      if file.Some? {
        assert (before + [file.value])[|before|] == file.value;
        assert before + [file.value] == [abs] <==> before == [] && file.value == abs;
      }
    }
  }

  /** Where the script's file leads: the relay's entrypoint, some other program, or nothing that can be told. */
  ghost predicate ScriptIs(f: Files, args: seq<string>, exact: bool, i: nat, c: Class)
    requires i < |args|
  {
    match c
    case Connector(p) =>
      exists abs :: ScriptFile(f, args, exact, i, abs) && f.realpath(abs) == Some(p) && f.shaped(p) && f.package(p) == Named("bot-relay-mcp")
    case NotRelay =>
      exists abs, p :: ScriptFile(f, args, exact, i, abs) && f.realpath(abs) == Some(p) &&
                       (!f.shaped(p) || exists name :: f.package(p) == Named(name) && name != "bot-relay-mcp")
    case Unclear =>
      forall abs, p :: ScriptFile(f, args, exact, i, abs) && f.realpath(abs) == Some(p) ==> f.shaped(p) && !f.package(p).Named?
  }

  lemma ScriptFileIs(f: Files, args: seq<string>, exact: bool, i: nat, abs: string)
    requires i < |args|
    ensures ScriptFile(f, args, exact, i, abs) <==>
            if exact then f.absolute(args[i]) == Some(abs) else Prefixes(f, args, i, |args| - i) == [abs]
  {
    if !exact { PrefixesOne(f, args, i, |args| - i, |args|, abs); }
  }

  /** What a script is taken for is what its file is, and nothing else. */
  lemma ScriptExactly(f: Files, args: seq<string>, exact: bool, i: nat, c: Class)
    requires i < |args|
    ensures ClassifyScript(f, args, exact, i) == c <==> ScriptIs(f, args, exact, i, c)
  {
    forall abs ensures ScriptFile(f, args, exact, i, abs) <==>
                       if exact then f.absolute(args[i]) == Some(abs) else Prefixes(f, args, i, |args| - i) == [abs]
    {
      ScriptFileIs(f, args, exact, i, abs);
    }
    hide ScriptFile, Prefixes;
    var found := Prefixes(f, args, i, |args| - i);
    assert |found| == 1 ==> found == [found[0]];
  }

  /** The reading ends at an argument, and the script there is the relay's entrypoint at that path. */
  ghost predicate Finds(f: Files, v: View, r: Reading, script: string)
  {
    r.At? && r.index < |v.args| && ScriptIs(f, v.args, v.exact, r.index, Connector(script))
  }

  lemma ClassFinds(f: Files, v: View, r: Reading, script: string)
    ensures ReadingClass(f, v, r) == Connector(script) <==> Finds(f, v, r, script)
  {
    hide ClassifyScript, ScriptIs;
    if r.At? && r.index < |v.args| { ScriptExactly(f, v.args, v.exact, r.index, Connector(script)); }
  }

  /** Every reading of the arguments finds this one script, the relay's: what it takes to be said to be a connector. */
  lemma ConnectorExactly(f: Files, o: Options, v: View, script: string)
    ensures (forall r :: r in Readings(o, v.args, 0) ==> ReadingClass(f, v, r) == Connector(script)) <==>
            forall r :: ReadAs(o, v.args, r) ==> Finds(f, v, r, script)
  {
    forall r ensures ReadingClass(f, v, r) == Connector(script) <==> Finds(f, v, r, script) { ClassFinds(f, v, r, script); }
    forall r ensures r in Readings(o, v.args, 0) <==> ReadAs(o, v.args, r) { ReadExactly(o, v.args, r); }
    hide *;
  }
}
