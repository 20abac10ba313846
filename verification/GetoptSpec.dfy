/** What a run of getopt should deliver: one left-to-right pass over the arguments that
    separates options from operands. */
module GetoptSpec {
  import opened Common

  /** A row of the long option table; flag names the variable it points to, if any. */
  datatype LongOption = LongOption(name: string, hasArg: int, flag: Option<nat>, val: int)

  /** Ordering of options and other arguments. */
  datatype Ordering = RequireOrder | Permute | ReturnInOrder

  /** What every call is given; longopts is None if there is no table. Whether plain char is a
      signed type depends on the compiler. */
  datatype Params = Params(optstring: string, longopts: Option<seq<LongOption>>, ordering: Ordering, charSigned: bool)

  /** What one call delivers: its value, optarg, and what it stores in optopt, *longind
      and the flag variable. */
  datatype Outcome = Outcome(ret: int, optarg: Option<string>, optopt: Option<int>,
                             longind: Option<nat>, store: Option<(nat, int)>)

  const QUESTION := '?' as int
  const COLON := ':' as int
  const DONE := -1
  const LAST_CHAR := 255 as char

  /** A character as the int it is returned as. */
  function CharValue(charSigned: bool, c: char): (v: int)
    ensures v == DONE <==> charSigned && c == LAST_CHAR
  {
    if charSigned && 128 <= c as int < 256 then c as int - 256 else c as int
  }

  /** An option without complications. */
  function Plain(p: Params, c: char, arg: Option<string>): Outcome {
    Outcome(CharValue(p.charSigned, c), arg, None, None, None)
  }

  function Complaint(ret: int, optopt: int): Outcome {
    Outcome(ret, None, Some(optopt), None, None)
  }

  /** How a missing argument is reported. */
  function Missing(optstring: string): int {
    if optstring != "" && optstring[0] == ':' then COLON else QUESTION
  }

  predicate NonOption(arg: string) {
    arg == "" || arg[0] != '-' || |arg| == 1
  }

  // ----- short options

  datatype ArgKind = Unknown | NoArgument | Required | Optional

  /** What optstring says about an option character. */
  function Kind(optstring: string, c: char): ArgKind {
    var i := IndexOf(optstring, c);
    if i == |optstring| || c == ':' then Unknown
    else if i + 1 == |optstring| || optstring[i + 1] != ':' then NoArgument
    else if i + 2 == |optstring| || optstring[i + 2] != ':' then Required
    else Optional
  }

  /** The options found in one argument, and whether the next argument belongs to them. */
  datatype Decoded = Decoded(events: seq<Outcome>, usesNext: bool)

  /** A cluster of option characters. */
  function ShortOptions(p: Params, chars: string, next: Option<string>): (d: Decoded)
    requires chars != ""
    ensures d.usesNext ==> next.Some?
    ensures 1 <= |d.events| <= |chars|
  {
    var c, rest := chars[0], chars[1..];
    match Kind(p.optstring, c)
    case Optional => Decoded([Plain(p, c, if rest == "" then None else Some(rest))], false)
    case Required =>
      if rest != "" then Decoded([Plain(p, c, Some(rest))], false)
      else if next.Some? then Decoded([Plain(p, c, next)], true)
      else Decoded([Complaint(Missing(p.optstring), CharValue(p.charSigned, c))], false)
    case _ =>
      var first :=
        if Kind(p.optstring, c).Unknown? then Complaint(QUESTION, CharValue(p.charSigned, c)) else Plain(p, c, None);
      if rest == "" then Decoded([first], false)
      else
        var d := ShortOptions(p, rest, next);
        Decoded([first] + d.events, d.usesNext)
  }

  // ----- long options

  datatype Match = Exact(index: nat) | Unique(index: nat) | Ambiguous | NotFound

  /** name abbreviates row i. */
  predicate Abbreviates(opts: seq<LongOption>, name: string, i: nat)
    requires i < |opts|
  {
    name <= opts[i].name
  }

  /** What the table says about a name: an exact match wins whatever precedes it. */
  ghost predicate IsMatch(opts: seq<LongOption>, name: string, m: Match) {
    match m
    case Exact(i) =>
      i < |opts| && opts[i].name == name && forall j | 0 <= j < i :: opts[j].name != name
    case Unique(i) =>
      && (forall j | 0 <= j < |opts| :: opts[j].name != name)
      && i < |opts| && Abbreviates(opts, name, i)
      && forall j | 0 <= j < |opts| && j != i :: !Abbreviates(opts, name, j)
    case Ambiguous =>
      && (forall j | 0 <= j < |opts| :: opts[j].name != name)
      && exists i, j | 0 <= i < j < |opts| :: Abbreviates(opts, name, i) && Abbreviates(opts, name, j)
    case NotFound =>
      forall j | 0 <= j < |opts| :: !Abbreviates(opts, name, j)
  }

  function FirstExact(opts: seq<LongOption>, name: string, from: nat): (i: nat)
    requires from <= |opts|
    ensures from <= i <= |opts|
    ensures forall j | from <= j < i :: opts[j].name != name
    ensures i < |opts| ==> opts[i].name == name
    decreases |opts| - from
  {
    if from == |opts| || opts[from].name == name then from else FirstExact(opts, name, from + 1)
  }

  function FirstAbbreviated(opts: seq<LongOption>, name: string, from: nat): (i: nat)
    requires from <= |opts|
    ensures from <= i <= |opts|
    ensures forall j | from <= j < i :: !Abbreviates(opts, name, j)
    ensures i < |opts| ==> Abbreviates(opts, name, i)
    decreases |opts| - from
  {
    if from == |opts| || Abbreviates(opts, name, from) then from else FirstAbbreviated(opts, name, from + 1)
  }

  function LongMatch(opts: seq<LongOption>, name: string): (m: Match)
    ensures IsMatch(opts, name, m)
  {
    var e := FirstExact(opts, name, 0);
    if e < |opts| then Exact(e)
    else
      var f := FirstAbbreviated(opts, name, 0);
      if f == |opts| then NotFound
      else if FirstAbbreviated(opts, name, f + 1) < |opts| then Ambiguous
      else Unique(f)
  }

  lemma MatchIsDetermined(opts: seq<LongOption>, name: string, m: Match, n: Match)
    requires IsMatch(opts, name, m) && IsMatch(opts, name, n)
    ensures m == n
  {
    if m.Exact? { assert Abbreviates(opts, name, m.index); }
    if n.Exact? { assert Abbreviates(opts, name, n.index); }
  }

  function NameOf(text: string): string { text[..IndexOf(text, '=')] }

  function ValueOf(text: string): Option<string> {
    var i := IndexOf(text, '=');
    if i == |text| then None else Some(text[i + 1..])
  }

  /** The successful outcome of a long option. */
  function LongResult(opt: LongOption, index: nat, arg: Option<string>): Outcome {
    match opt.flag
    case Some(v) => Outcome(0, arg, None, Some(index), Some((v, opt.val)))
    case None => Outcome(opt.val, arg, None, Some(index), None)
  }

  /** A long option; text is what follows the two dashes. */
  function LongOptionOf(p: Params, opts: seq<LongOption>, text: string, next: Option<string>): (d: Decoded)
    ensures d.usesNext ==> next.Some?
    ensures |d.events| == 1
  {
    match LongMatch(opts, NameOf(text))
    case Ambiguous => Decoded([Complaint(QUESTION, 0)], false)
    case NotFound => Decoded([Complaint(QUESTION, 0)], false)
    case _ =>
      var i := LongMatch(opts, NameOf(text)).index;
      var opt := opts[i];
      match ValueOf(text)
      case Some(arg) =>
        if opt.hasArg != 0 then Decoded([LongResult(opt, i, Some(arg))], false)
        else Decoded([Complaint(QUESTION, opt.val)], false)
      case None =>
        if opt.hasArg != 1 then Decoded([LongResult(opt, i, None)], false)
        else if next.Some? then Decoded([LongResult(opt, i, next)], true)
        else Decoded([Complaint(Missing(p.optstring), opt.val)], false)
  }

  // ----- the whole argument list

  predicate IsLong(p: Params, arg: string) {
    p.longopts.Some? && |arg| > 1 && arg[1] == '-'
  }

  function OptionsOf(p: Params, arg: string, next: Option<string>): (d: Decoded)
    requires !NonOption(arg)
    ensures d.usesNext ==> next.Some?
    ensures 1 <= |d.events| <= |arg|
  {
    if IsLong(p, arg) then LongOptionOf(p, p.longopts.value, arg[2..], next)
    else ShortOptions(p, arg[1..], next)
  }

  function Head(args: seq<string>): Option<string> {
    if args == [] then None else Some(args[0])
  }

  /** The events in order, the arguments used up by them, and the arguments left over. */
  datatype Parsed = Parsed(events: seq<Outcome>, consumed: seq<string>, operands: seq<string>)

  function Append(p: Parsed, q: Parsed): Parsed {
    Parsed(p.events + q.events, p.consumed + q.consumed, p.operands + q.operands)
  }

  function Parse(p: Params, args: seq<string>): Parsed {
    if args == [] then Parsed([], [], [])
    else if args[0] == "--" then Parsed([], args[..1], args[1..])
    else if NonOption(args[0]) then
      match p.ordering
      case Permute => Append(Parsed([], [], args[..1]), Parse(p, args[1..]))
      case RequireOrder => Parsed([], [], args)
      case ReturnInOrder =>
        Append(Parsed([Outcome(1, Some(args[0]), None, None, None)], args[..1], []), Parse(p, args[1..]))
    else
      var d := OptionsOf(p, args[0], Head(args[1..]));
      var n := if d.usesNext then 2 else 1;
      Append(Parsed(d.events, args[..n], []), Parse(p, args[n..]))
  }

  function TotalLength(args: seq<string>): nat {
    if args == [] then 0 else |args[0]| + TotalLength(args[1..])
  }

  lemma {:induction false} TotalLengthConcat(a: seq<string>, b: seq<string>)
    ensures TotalLength(a + b) == TotalLength(a) + TotalLength(b)
    ensures forall s :: TotalLength([s]) == |s|
  {
    if a == [] {
      assert a + b == b;
    } else {
      assert (a + b)[1..] == a[1..] + b;
      TotalLengthConcat(a[1..], b);
    }
    assert forall s: string :: [s][1..] == [];
  }

  /** A run ends within a bound given by the length of the arguments. */
  lemma {:induction false} EventsAreBounded(p: Params, args: seq<string>)
    ensures |Parse(p, args).events| <= TotalLength(args) + if p.ordering.ReturnInOrder? then |args| else 0
  {
    hide OptionsOf;
    if args == [] || args[0] == "--" {
    } else if NonOption(args[0]) {
      EventsAreBounded(p, args[1..]);
    } else {
      EventsAreBounded(p, args[1..]);
      var d := OptionsOf(p, args[0], Head(args[1..]));
      if d.usesNext {
        assert args[1..][1..] == args[2..];
        EventsAreBounded(p, args[2..]);
      }
    }
  }

  /** s is a stable merge of a and b. */
  predicate Interleaves(s: seq<string>, a: seq<string>, b: seq<string>) {
    if s == [] then a == [] && b == []
    else
      || (a != [] && a[0] == s[0] && Interleaves(s[1..], a[1..], b))
      || (b != [] && b[0] == s[0] && Interleaves(s[1..], a, b[1..]))
  }

  /** A merge has the elements of both, and each side in order. */
  lemma {:induction false} MergeKeepsAll(s: seq<string>, a: seq<string>, b: seq<string>)
    requires Interleaves(s, a, b)
    ensures multiset(s) == multiset(a) + multiset(b)
    ensures a == [] ==> s == b
    ensures b == [] ==> s == a
  {
    if s != [] {
      assert s == [s[0]] + s[1..];
      if a != [] && a[0] == s[0] && Interleaves(s[1..], a[1..], b) {
        assert a == [a[0]] + a[1..];
        MergeKeepsAll(s[1..], a[1..], b);
      } else {
        assert b == [b[0]] + b[1..];
        MergeKeepsAll(s[1..], a, b[1..]);
      }
    }
  }

  lemma {:induction false} OnlyOperands(s: seq<string>)
    ensures Interleaves(s, [], s)
  {
    if s != [] {
      OnlyOperands(s[1..]);
    }
  }

  lemma PrependToMerge(x: string, s: seq<string>, a: seq<string>, b: seq<string>)
    requires Interleaves(s, a, b)
    ensures Interleaves([x] + s, [x] + a, b) && Interleaves([x] + s, a, [x] + b)
  {}

  /** Parsing splits the arguments into two subsequences: nothing is lost, duplicated or reordered. */
  lemma {:induction false} ParseIsStablePartition(p: Params, args: seq<string>)
    ensures Interleaves(args, Parse(p, args).consumed, Parse(p, args).operands)
  {
    hide OptionsOf, Interleaves;
    if args == [] {
      OnlyOperands([]);
    } else {
      var x := args[0];
      assert args == [x] + args[1..] && args[..1] == [x];
      if x == "--" {
        OnlyOperands(args[1..]);
        PrependToMerge(x, args[1..], [], args[1..]);
        assert [x] + [] == [x];
      } else if NonOption(x) {
        OnlyOperands(args);
        var r := Parse(p, args[1..]);
        ParseIsStablePartition(p, args[1..]);
        PrependToMerge(x, args[1..], r.consumed, r.operands);
        assert [] + r.consumed == r.consumed && [] + r.operands == r.operands;
      } else if OptionsOf(p, x, Head(args[1..])).usesNext {
        var y, r := args[1], Parse(p, args[2..]);
        ParseIsStablePartition(p, args[2..]);
        PrependToMerge(y, args[2..], r.consumed, r.operands);
        PrependToMerge(x, [y] + args[2..], [y] + r.consumed, r.operands);
        assert [] + r.operands == r.operands;
        assert args == [x] + ([y] + args[2..]) && args[..2] + r.consumed == [x] + ([y] + r.consumed);
      } else {
        var r := Parse(p, args[1..]);
        ParseIsStablePartition(p, args[1..]);
        PrependToMerge(x, args[1..], r.consumed, r.operands);
        assert [] + r.consumed == r.consumed && [] + r.operands == r.operands;
      }
    }
  }
}
