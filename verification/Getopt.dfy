/** The permuting scanner: getopt's static variables, the block rotation and one call. */
module Getopt {
  import opened Common
  import opened GetoptSpec

  // ----- rotating two adjacent blocks

  /** Where position k gets its element from when [bottom, middle) and [middle, top) change places. */
  function RotationSource(bottom: nat, middle: nat, top: nat, k: nat): (j: nat)
    requires bottom <= middle <= top
    ensures j == k || j < top
  {
    if k < bottom || top <= k then k
    else if k < bottom + (top - middle) then k - bottom + middle
    else k - (top - middle)
  }

  function Rotated(s: seq<string>, bottom: nat, middle: nat, top: nat): (r: seq<string>)
    requires bottom <= middle <= top <= |s|
    ensures |r| == |s|
  {
    seq(|s|, k requires 0 <= k < |s| => s[RotationSource(bottom, middle, top, k)])
  }

  /** Both blocks keep their internal order and everything else stays where it is. */
  lemma RotatedBlocks(s: seq<string>, bottom: nat, middle: nat, top: nat)
    requires bottom <= middle <= top <= |s|
    ensures Rotated(s, bottom, middle, top) == s[..bottom] + s[middle..top] + s[bottom..middle] + s[top..]
  {}

  /** Where position k gets its element from when the n-element blocks at i and j are swapped. */
  function SwapSource(i: nat, j: nat, n: nat, k: nat): nat
    requires i + n <= j
  {
    if i <= k < i + n then k - i + j else if j <= k < j + n then k - j + i else k
  }

  /** The inner loops of exchange. */
  method SwapBlocks(argv: array<string>, i: nat, j: nat, n: nat)
    requires i + n <= j && j + n <= argv.Length
    modifies argv
    ensures forall k: nat :: k < argv.Length ==> argv[k] == old(argv[SwapSource(i, j, n, k)])
  {
    for m := 0 to n
      invariant forall k: nat :: k < argv.Length ==> argv[k] == old(argv[SwapSource(i, j, m, k)])
    {
      var tem := argv[i + m];
      argv[i + m] := argv[j + m];
      argv[j + m] := tem;
    }
  }

  lemma ShortBottom(bottom: nat, middle: nat, top: nat, k: nat)
    requires bottom < middle < top && middle - bottom < top - middle
    ensures var n := middle - bottom;
            SwapSource(bottom, top - n, n, RotationSource(bottom, middle, top - n, k))
            == RotationSource(bottom, middle, top, k)
  {}

  lemma ShortTop(bottom: nat, middle: nat, top: nat, k: nat)
    requires bottom < middle < top && top - middle <= middle - bottom
    ensures var n := top - middle;
            SwapSource(bottom, middle, n, RotationSource(bottom + n, middle, top, k))
            == RotationSource(bottom, middle, top, k)
  {}

  /** Exchange the blocks, always the shorter one with the far end of the longer one. */
  method RotateBlocks(argv: array<string>, first: nat, last: nat, end: nat)
    requires first <= last <= end <= argv.Length
    modifies argv
    ensures argv[..] == Rotated(old(argv[..]), first, last, end)
  {
    hide RotationSource, SwapSource, Rotated;
    var bottom: nat, middle: nat, top: nat := first, last, end;
    while top > middle && middle > bottom
      invariant bottom <= middle <= top <= argv.Length
      invariant Rotated(argv[..], bottom, middle, top) == Rotated(old(argv[..]), first, last, end)
      decreases top - bottom
    {
      ghost var before := argv[..];
      if top - middle > middle - bottom {
        var len := middle - bottom;
        forall k: nat | k < argv.Length { ShortBottom(bottom, middle, top, k); }
        SwapBlocks(argv, bottom, top - len, len);
        top := top - len;
        SameRotation(argv[..], bottom, middle, top, before, bottom, middle, top + len);
      } else {
        var len := top - middle;
        forall k: nat | k < argv.Length { ShortTop(bottom, middle, top, k); }
        SwapBlocks(argv, bottom, middle, len);
        bottom := bottom + len;
        SameRotation(argv[..], bottom, middle, top, before, bottom - len, middle, top);
      }
    }
    NothingToRotate(argv[..], bottom, middle, top);
  }

  lemma NothingToRotate(s: seq<string>, bottom: nat, middle: nat, top: nat)
    requires bottom <= middle <= top <= |s|
    requires bottom == middle || middle == top
    ensures Rotated(s, bottom, middle, top) == s
  {}

  lemma SameRotation(s: seq<string>, b: nat, m: nat, t: nat, s': seq<string>, b': nat, m': nat, t': nat)
    requires b <= m <= t <= |s| == |s'| && b' <= m' <= t' <= |s'|
    requires forall k: nat :: k < |s| ==> s[RotationSource(b, m, t, k)] == s'[RotationSource(b', m', t', k)]
    ensures Rotated(s, b, m, t) == Rotated(s', b', m', t')
  {}

  // ----- the scanner

  /** The options processed so far, in order, when the operands skipped so far lie in [first, last). */
  function Consumed(argv: seq<string>, first: nat, last: nat, optind: nat): seq<string>
    requires 1 <= first <= last <= optind <= |argv|
  {
    argv[1..first] + argv[last..optind]
  }

  lemma RotationKeepsOrder(argv: seq<string>, first: nat, last: nat, optind: nat)
    requires 1 <= first <= last <= optind <= |argv|
    ensures var r, f := Rotated(argv, first, last, optind), first + (optind - last);
            && r[0] == argv[0]
            && r[1..f] == Consumed(argv, first, last, optind)
            && r[f..optind] == argv[first..last]
            && r[optind..] == argv[optind..]
  {}

  /** What the arguments from optind on still have to deliver; nextchar is the unread part
      of a cluster of option characters. */
  function Pending(p: Params, argv: seq<string>, optind: nat, nextchar: string): Parsed
    requires optind <= |argv|
    requires nextchar != "" ==> optind < |argv|
  {
    if nextchar == "" then Parse(p, argv[optind..]) else
      var d := ShortOptions(p, nextchar, Head(argv[optind + 1..]));
      var n := if d.usesNext then 2 else 1;
      Append(Parsed(d.events, argv[optind..optind + n], []), Parse(p, argv[optind + n..]))
  }

  /** What a run delivers in all: what is sorted out already, then what is pending. */
  function Total(p: Params, argv: seq<string>, first: nat, last: nat, optind: nat, nextchar: string): Parsed
    requires 1 <= first <= last <= optind <= |argv|
    requires nextchar != "" ==> optind < |argv|
  {
    Append(Parsed([], Consumed(argv, first, last, optind), argv[first..last]), Pending(p, argv, optind, nextchar))
  }

  lemma OperandFirst(p: Params, args: seq<string>)
    requires args != [] && NonOption(args[0])
    ensures Parse(p, args) == match p.ordering
              case Permute => Append(Parsed([], [], args[..1]), Parse(p, args[1..]))
              case RequireOrder => Parsed([], [], args)
              case ReturnInOrder =>
                Append(Parsed([Outcome(1, Some(args[0]), None, None, None)], args[..1], []), Parse(p, args[1..]))
  {}

  lemma {:induction false} OperandsSkipped(p: Params, args: seq<string>, n: nat)
    requires p.ordering.Permute? && n <= |args|
    requires forall k :: 0 <= k < n ==> NonOption(args[k])
    ensures Parse(p, args) == Append(Parsed([], [], args[..n]), Parse(p, args[n..]))
  {
    hide Parse, NonOption;
    if n == 0 {
      assert args[0..] == args;
    } else {
      OperandFirst(p, args);
      OperandsSkipped(p, args[1..], n - 1);
      assert args[1..][n - 1..] == args[n..];
      assert args[..1] + args[1..][..n - 1] == args[..n];
    }
  }

  /** Skipped operands join the operands. */
  lemma SkippingKeepsTotal(p: Params, argv: seq<string>, first: nat, start: nat, end: nat)
    requires p.ordering.Permute? && 1 <= first <= start <= end <= |argv|
    requires forall k :: start <= k < end ==> NonOption(argv[k])
    ensures Total(p, argv, first, start, start, "") == Total(p, argv, first, end, end, "")
  {
    hide Parse;
    OperandsSkipped(p, argv[start..], end - start);
    assert argv[start..][end - start..] == argv[end..];
    assert argv[first..start] + argv[start..][..end - start] == argv[first..end];
  }

  /** Delivering the first event. */
  predicate Delivers(before: Parsed, o: Outcome, after: Parsed) {
    before == Append(Parsed([o], [], []), after)
  }

  /** An argument used up together with those it takes along joins the consumed ones. */
  lemma UsedUp(p: Params, argv: seq<string>, first: nat, last: nat, optind: nat, n: nat, o: Outcome, before: Parsed)
    requires 1 <= first <= last <= optind && optind + n <= |argv|
    requires before == Append(Parsed([], Consumed(argv, first, last, optind), argv[first..last]),
                              Append(Parsed([o], argv[optind..optind + n], []), Parse(p, argv[optind + n..])))
    ensures Delivers(before, o, Total(p, argv, first, last, optind + n, ""))
  {
    hide Parse;
    assert argv[last..optind] + argv[optind..optind + n] == argv[last..optind + n];
  }

  /** One step through a cluster of option characters. */
  lemma ClusterStep(p: Params, argv: seq<string>, first: nat, last: nat, optind: nat, nextchar: string)
    requires 1 <= first <= last <= optind < |argv| && nextchar != ""
    ensures var d := ShortOptions(p, nextchar, Head(argv[optind + 1..]));
            var before := Total(p, argv, first, last, optind, nextchar);
            if |d.events| > 1 then
              nextchar[1..] != "" && Delivers(before, d.events[0], Total(p, argv, first, last, optind, nextchar[1..]))
            else
              Delivers(before, d.events[0],
                       Total(p, argv, first, last, optind + if d.usesNext then 2 else 1, ""))
  {
    hide Parse;
    var d := ShortOptions(p, nextchar, Head(argv[optind + 1..]));
    var before := Total(p, argv, first, last, optind, nextchar);
    if |d.events| > 1 {
      assert d.events == [d.events[0]] + ShortOptions(p, nextchar[1..], Head(argv[optind + 1..])).events;
    } else {
      assert d.events == [d.events[0]];
      UsedUp(p, argv, first, last, optind, if d.usesNext then 2 else 1, d.events[0], before);
    }
  }

  /** What an option argument and those it takes along deliver. */
  lemma OptionNext(p: Params, argv: seq<string>, optind: nat)
    requires optind < |argv| && !NonOption(argv[optind]) && argv[optind] != "--"
    ensures var d := OptionsOf(p, argv[optind], Head(argv[optind + 1..]));
            var n := if d.usesNext then 2 else 1;
            optind + n <= |argv|
            && Parse(p, argv[optind..])
               == Append(Parsed(d.events, argv[optind..optind + n], []), Parse(p, argv[optind + n..]))
  {
    hide OptionsOf;
    assert argv[optind..][1..] == argv[optind + 1..];
    var n := if OptionsOf(p, argv[optind], Head(argv[optind + 1..])).usesNext then 2 else 1;
    assert argv[optind..][..n] == argv[optind..optind + n] && argv[optind..][n..] == argv[optind + n..];
  }

  lemma ShortStarts(p: Params, argv: seq<string>, first: nat, last: nat, optind: nat)
    requires 1 <= first <= last <= optind < |argv|
    requires !NonOption(argv[optind]) && argv[optind] != "--" && !IsLong(p, argv[optind])
    ensures Total(p, argv, first, last, optind, "") == Total(p, argv, first, last, optind, argv[optind][1..])
  {
    hide ShortOptions, Parse;
    OptionNext(p, argv, optind);
  }

  lemma LongStep(p: Params, argv: seq<string>, first: nat, last: nat, optind: nat)
    requires 1 <= first <= last <= optind < |argv|
    requires !NonOption(argv[optind]) && argv[optind] != "--" && IsLong(p, argv[optind])
    ensures var d := LongOptionOf(p, p.longopts.value, argv[optind][2..], Head(argv[optind + 1..]));
            Delivers(Total(p, argv, first, last, optind, ""), d.events[0],
                     Total(p, argv, first, last, optind + if d.usesNext then 2 else 1, ""))
  {
    hide LongOptionOf, Parse;
    OptionNext(p, argv, optind);
    var d := LongOptionOf(p, p.longopts.value, argv[optind][2..], Head(argv[optind + 1..]));
    assert d.events == [d.events[0]];
    UsedUp(p, argv, first, last, optind, if d.usesNext then 2 else 1, d.events[0],
           Total(p, argv, first, last, optind, ""));
  }

  /** `--` ends the options and is one of the consumed arguments. */
  lemma DashDash(p: Params, argv: seq<string>, first: nat, last: nat, optind: nat)
    requires 1 <= first <= last <= optind < |argv| && argv[optind] == "--"
    requires last == optind || first == last
    ensures Total(p, argv, first, last, optind, "")
         == Parsed([], argv[1..first] + argv[last..optind + 1], argv[first..last] + argv[optind + 1..])
  {}

  /** What the `--` branch leaves: rotated if there are operands and options to rotate. */
  lemma AfterDashDash(s: seq<string>, first: nat, last: nat, optind: nat)
    requires 1 <= first <= last < optind <= |s|
    ensures var t := Parsed([], s[1..first] + s[last..optind], s[first..last] + s[optind..]);
            if first != last then Finished(t, Rotated(s, first, last, optind), first + (optind - last))
            else Finished(t, s, optind)
    ensures Rotated(s, first, last, optind)[0] == s[0]
  {}

  /** A run is over: the consumed arguments come first, the operands start at optind. */
  predicate Finished(t: Parsed, argv: seq<string>, optind: nat)
    requires 1 <= optind <= |argv|
  {
    t == Parsed([], argv[1..optind], argv[optind..])
  }

  lemma EndOfArguments(p: Params, argv: seq<string>, first: nat, last: nat)
    requires 1 <= first <= last <= |argv|
    requires last == |argv| || first == last
    ensures Finished(Total(p, argv, first, last, |argv|, ""), argv, if first != last then first else |argv|)
  {}

  lemma FirstOperand(p: Params, argv: seq<string>, first: nat, optind: nat)
    requires 1 <= first <= optind < |argv| && NonOption(argv[optind])
    ensures p.ordering.RequireOrder? ==> Finished(Total(p, argv, first, first, optind, ""), argv, optind)
    ensures p.ordering.ReturnInOrder? ==>
              Delivers(Total(p, argv, first, first, optind, ""), Outcome(1, Some(argv[optind]), None, None, None),
                       Total(p, argv, first, first, optind + 1, ""))
  {
    hide Parse, NonOption;
    OperandFirst(p, argv[optind..]);
    assert argv[optind..][..1] == argv[optind..optind + 1] && argv[optind..][1..] == argv[optind + 1..];
    assert argv[1..first] + argv[first..optind] == argv[1..optind];
    assert argv[first..optind] + argv[optind..optind + 1] == argv[first..optind + 1];
  }

  // ----- the long option table

  /** Test all long options for an exact or an abbreviated match; stop at an exact one. */
  method ScanTable(longopts: seq<LongOption>, name: string) returns (pfound: Option<nat>, exact: bool, ambig: bool)
    ensures exact ==> pfound.Some? && LongMatch(longopts, name) == Exact(pfound.value)
    ensures !exact && ambig ==> LongMatch(longopts, name) == Ambiguous
    ensures !exact && !ambig ==>
              LongMatch(longopts, name) == if pfound.Some? then Unique(pfound.value) else NotFound
  {
    pfound, exact, ambig := None, false, false;
    var p := 0;
    while p < |longopts|
      invariant p <= |longopts| && !exact
      invariant forall j | 0 <= j < p :: longopts[j].name != name
      invariant pfound.None? ==> !ambig && forall j | 0 <= j < p :: !Abbreviates(longopts, name, j)
      invariant pfound.Some? ==> pfound.value < p && Abbreviates(longopts, name, pfound.value)
      invariant pfound.Some? && !ambig ==>
                  forall j | 0 <= j < p && j != pfound.value :: !Abbreviates(longopts, name, j)
      invariant ambig ==>
                  exists i, j | 0 <= i < j < p :: Abbreviates(longopts, name, i) && Abbreviates(longopts, name, j)
    {
      if name <= longopts[p].name {
        if |name| == |longopts[p].name| {
          pfound, exact := Some(p), true;
          MatchIsDetermined(longopts, name, LongMatch(longopts, name), Exact(p));
          return;
        } else if pfound.None? {
          pfound := Some(p);
        } else {
          assert pfound.value < p && Abbreviates(longopts, name, p);
          ambig := true;
        }
      }
      p := p + 1;
    }
    MatchIsDetermined(longopts, name, LongMatch(longopts, name),
                      if ambig then Ambiguous else if pfound.Some? then Unique(pfound.value) else NotFound);
  }

  /** optstring has no `W;` entry. */
  predicate NoLongW(optstring: string) {
    var i := IndexOf(optstring, 'W');
    i + 1 < |optstring| ==> optstring[i + 1] != ';'
  }

  function OrderingFor(optstring: string, posixlyCorrect: bool): Ordering {
    if optstring != "" && optstring[0] == '-' then ReturnInOrder
    else if optstring != "" && optstring[0] == '+' then RequireOrder
    else if posixlyCorrect then RequireOrder
    else Permute
  }

  const END := Outcome(DONE, None, None, None, None)

  class Scanner {
    const argv: array<string>
    var optind: nat
    var nextchar: string    // "" when null or used up
    var firstNonopt: nat
    var lastNonopt: nat
    var ordering: Ordering
    var initialized: bool

    constructor (argv: array<string>)
      ensures this.argv == argv && optind == 1 && !initialized
    {
      this.argv := argv;
      optind, firstNonopt, lastNonopt := 1, 0, 0;
      nextchar, ordering, initialized := "", Permute, false;
    }

    ghost predicate Bounds()
      reads this
    {
      1 <= firstNonopt <= lastNonopt <= optind <= argv.Length
    }

    /** The state between calls. */
    ghost predicate Valid(p: Params)
      reads this, argv
    {
      && Bounds()
      && (!p.ordering.Permute? ==> firstNonopt == lastNonopt)
      && (nextchar != "" ==>
            && optind < argv.Length && !IsLong(p, argv[optind])
            && |nextchar| < |argv[optind]| && nextchar == argv[optind][|argv[optind]| - |nextchar|..])
    }

    ghost function Now(p: Params): Parsed
      requires Valid(p)
      reads this, argv
    {
      Total(p, argv[..], firstNonopt, lastNonopt, optind, nextchar)
    }

    method Exchange()
      requires Bounds()
      modifies this`firstNonopt, this`lastNonopt, argv
      ensures argv[..] == Rotated(old(argv[..]), old(firstNonopt), old(lastNonopt), optind)
      ensures firstNonopt == old(firstNonopt) + (optind - old(lastNonopt)) && lastNonopt == optind
    {
      RotateBlocks(argv, firstNonopt, lastNonopt, optind);
      firstNonopt := firstNonopt + (optind - lastNonopt);
      lastNonopt := optind;
    }

    /** Move the operands behind the options that followed them. */
    method CloseGap(ghost p: Params)
      requires Bounds()
      modifies this`firstNonopt, this`lastNonopt, argv
      ensures Bounds() && lastNonopt == optind && argv[0] == old(argv[0])
      ensures Total(p, argv[..], firstNonopt, lastNonopt, optind, "")
           == old(Total(p, argv[..], firstNonopt, lastNonopt, optind, ""))
    {
      hide Parse, Rotated;
      ghost var s := argv[..];
      RotationKeepsOrder(s, firstNonopt, lastNonopt, optind);
      if firstNonopt != lastNonopt && lastNonopt != optind {
        Exchange();
      } else if lastNonopt != optind {
        assert s[1..firstNonopt] + s[lastNonopt..optind] == s[1..optind];
        firstNonopt := optind;
      }
      lastNonopt := optind;
    }

    /** Skip operands. */
    method SkipOperands(ghost p: Params)
      requires Bounds() && lastNonopt == optind && p.ordering.Permute?
      modifies this`optind, this`lastNonopt
      ensures Bounds() && lastNonopt == optind
      ensures optind < argv.Length ==> !NonOption(argv[optind])
      ensures Total(p, argv[..], firstNonopt, lastNonopt, optind, "")
           == old(Total(p, argv[..], firstNonopt, lastNonopt, optind, ""))
    {
      hide Total;
      ghost var start := optind;
      while optind < argv.Length && NonOption(argv[optind])
        invariant start <= optind <= argv.Length
        invariant forall k :: start <= k < optind ==> NonOption(argv[k])
      {
        optind := optind + 1;
      }
      lastNonopt := optind;
      SkippingKeepsTotal(p, argv[..], firstNonopt, start, optind);
    }

    /** The next option character of a cluster. */
    method ShortOption(p: Params) returns (o: Outcome)
      requires nextchar != "" && optind < argv.Length && NoLongW(p.optstring)
      modifies this`optind, this`nextchar
      ensures var d := ShortOptions(p, old(nextchar), Head(argv[old(optind) + 1..]));
              && o == d.events[0]
              && if |d.events| > 1 then nextchar == old(nextchar)[1..] != "" && optind == old(optind)
                 else nextchar == "" && optind == old(optind) + if d.usesNext then 2 else 1
    {
      ghost var next := Head(argv[optind + 1..]);
      assert next == if optind + 1 < argv.Length then Some(argv[optind + 1]) else None;
      var c := nextchar[0];
      var temp := IndexOf(p.optstring, c);
      nextchar := nextchar[1..];
      if nextchar == "" {
        optind := optind + 1;
      }
      if temp == |p.optstring| || c == ':' {
        return Complaint(QUESTION, CharValue(p.charSigned, c));
      }
      var rest := p.optstring[temp..];
      if |rest| > 1 && rest[1] == ':' {
        if |rest| > 2 && rest[2] == ':' {
          o := Plain(p, c, if nextchar != "" then Some(nextchar) else None);
          if nextchar != "" {
            optind := optind + 1;
          }
          nextchar := "";
        } else {
          if nextchar != "" {
            o := Plain(p, c, Some(nextchar));
            optind := optind + 1;
          } else if optind == argv.Length {
            o := Complaint(if p.optstring[0] == ':' then COLON else QUESTION, CharValue(p.charSigned, c));
          } else {
            o := Plain(p, c, Some(argv[optind]));
            optind := optind + 1;
          }
          nextchar := "";
        }
      } else {
        o := Plain(p, c, None);
      }
    }

    /** A long option; nextchar is what follows the dashes. */
    method LongOption(p: Params, longopts: seq<LongOption>) returns (o: Outcome)
      requires optind < argv.Length
      modifies this`optind, this`nextchar
      ensures var d := LongOptionOf(p, longopts, old(nextchar), Head(argv[old(optind) + 1..]));
              o == d.events[0] && nextchar == "" && optind == old(optind) + if d.usesNext then 2 else 1
    {
      ghost var next := Head(argv[optind + 1..]);
      assert next == if optind + 1 < argv.Length then Some(argv[optind + 1]) else None;
      var nameend := IndexOf(nextchar, '=');
      var pfound, exact, ambig := ScanTable(longopts, nextchar[..nameend]);
      if ambig && !exact {
        nextchar := "";
        optind := optind + 1;
        return Complaint(QUESTION, 0);
      }
      if pfound.Some? {
        var opt := longopts[pfound.value];
        var optarg := None;
        optind := optind + 1;
        if nameend < |nextchar| {
          if opt.hasArg != 0 {
            optarg := Some(nextchar[nameend + 1..]);
          } else {
            nextchar := "";
            return Complaint(QUESTION, opt.val);
          }
        } else if opt.hasArg == 1 {
          if optind < argv.Length {
            optarg := Some(argv[optind]);
            optind := optind + 1;
          } else {
            nextchar := "";
            return Complaint(Missing(p.optstring), opt.val);
          }
        }
        nextchar := "";
        return LongResult(opt, pfound.value, optarg);
      }
      nextchar := "";
      optind := optind + 1;
      o := Complaint(QUESTION, 0);
    }

    /** The `--` branch. */
    method EndOptions(ghost p: Params)
      requires Bounds() && optind < argv.Length && argv[optind] == "--"
      requires lastNonopt == optind || firstNonopt == lastNonopt
      modifies this`optind, this`firstNonopt, this`lastNonopt, argv
      ensures 1 <= firstNonopt <= lastNonopt == optind == argv.Length && argv[0] == old(argv[0])
      ensures Finished(old(Total(p, argv[..], firstNonopt, lastNonopt, optind, "")), argv[..], firstNonopt)
    {
      hide Total, Rotated;
      ghost var s := argv[..];
      DashDash(p, s, firstNonopt, lastNonopt, optind);
      optind := optind + 1;
      AfterDashDash(s, firstNonopt, lastNonopt, optind);
      if firstNonopt != lastNonopt && lastNonopt != optind {
        Exchange();
      } else if firstNonopt == lastNonopt {
        firstNonopt := optind;
      }
      lastNonopt := argv.Length;
      optind := argv.Length;
    }

    /** Give firstNonopt and lastNonopt sensible values if the caller moved optind back. */
    method ClampToOptind()
      modifies this`firstNonopt, this`lastNonopt
      ensures firstNonopt == if old(firstNonopt) > optind then optind else old(firstNonopt)
      ensures lastNonopt == if old(lastNonopt) > optind then optind else old(lastNonopt)
    {
      if lastNonopt > optind {
        lastNonopt := optind;
      }
      if firstNonopt > optind {
        firstNonopt := optind;
      }
    }

    /** Advance to the next option argument, unless the call ends before it gets there. */
    method Advance(p: Params) returns (result: Option<Outcome>)
      requires Valid(p) && nextchar == ""
      modifies this`optind, this`firstNonopt, this`lastNonopt, argv
      ensures argv[0] == old(argv[0])
      ensures result != Some(END) ==> Valid(p)
      ensures match result
        case None =>
          && optind < argv.Length && !NonOption(argv[optind]) && argv[optind] != "--"
          && Now(p) == old(Now(p))
        case Some(o) =>
          if o == END then 1 <= optind <= argv.Length && Finished(old(Now(p)), argv[..], optind)
          else Delivers(old(Now(p)), o, Now(p))
    {
      hide Total;
      ClampToOptind();
      if p.ordering.Permute? {
        CloseGap(p);
        SkipOperands(p);
      }
      if optind != argv.Length && argv[optind] == "--" {
        EndOptions(p);
        if firstNonopt != lastNonopt {
          optind := firstNonopt;
        }
        return Some(END);
      }
      if optind == argv.Length {
        EndOfArguments(p, argv[..], firstNonopt, lastNonopt);
        if firstNonopt != lastNonopt {
          optind := firstNonopt;
        }
        return Some(END);
      }
      if NonOption(argv[optind]) {
        FirstOperand(p, argv[..], firstNonopt, optind);
        if p.ordering.RequireOrder? {
          return Some(END);
        }
        var optarg := argv[optind];
        optind := optind + 1;
        return Some(Outcome(1, Some(optarg), None, None, None));
      }
      result := None;
    }

    /** A long option is next. */
    method NextLong(p: Params) returns (o: Outcome)
      requires Valid(p) && nextchar == "" && optind < argv.Length
      requires !NonOption(argv[optind]) && argv[optind] != "--" && IsLong(p, argv[optind])
      modifies this`optind, this`nextchar
      ensures Valid(p) && Delivers(old(Now(p)), o, Now(p))
    {
      hide Total, LongOptionOf;
      LongStep(p, argv[..], firstNonopt, lastNonopt, optind);
      nextchar := argv[optind][2..];
      o := LongOption(p, p.longopts.value);
    }

    /** A character of a cluster is next. */
    method NextShort(p: Params) returns (o: Outcome)
      requires Valid(p) && nextchar != "" && NoLongW(p.optstring)
      modifies this`optind, this`nextchar
      ensures Valid(p) && Delivers(old(Now(p)), o, Now(p))
    {
      hide Total, ShortOptions, NoLongW, Delivers;
      ClusterStep(p, argv[..], firstNonopt, lastNonopt, optind, nextchar);
      o := ShortOption(p);
    }

    /** The characters of a short option argument are looked at one by one. */
    method StartCluster(ghost p: Params)
      requires Valid(p) && nextchar == "" && optind < argv.Length
      requires !NonOption(argv[optind]) && argv[optind] != "--" && !IsLong(p, argv[optind])
      modifies this`nextchar
      ensures Valid(p) && nextchar != "" && Now(p) == old(Now(p))
    {
      hide Total;
      ShortStarts(p, argv[..], firstNonopt, lastNonopt, optind);
      nextchar := argv[optind][1..];
    }

    /** One call: it delivers the first pending event, or ends the run when none is left. */
    method Next(p: Params) returns (o: Outcome)
      requires Valid(p) && NoLongW(p.optstring)
      modifies this`optind, this`nextchar, this`firstNonopt, this`lastNonopt, argv
      ensures argv[0] == old(argv[0])
      ensures if old(Now(p)).events == [] then
                o == END && 1 <= optind <= argv.Length && Finished(old(Now(p)), argv[..], optind)
              else Valid(p) && Delivers(old(Now(p)), o, Now(p))
    {
      hide Total, ShortOptions, LongOptionOf, NoLongW, NonOption, Now;
      if nextchar == "" {
        var result := Advance(p);
        if result.Some? {
          return result.value;
        }
        if IsLong(p, argv[optind]) {
          o := NextLong(p);
          return;
        }
        StartCluster(p);
      }
      o := NextShort(p);
    }

    /** The next call starts a new scan. */
    predicate Starting()
      reads this
    {
      optind == 0 || !initialized
    }

    /** _getopt_initialize, together with the reset of optind before it. */
    method Initialize(optstring: string, posixlyCorrect: bool) returns (effective: string)
      modifies this`optind, this`nextchar, this`firstNonopt, this`lastNonopt, this`ordering, this`initialized
      ensures optind == if old(optind) == 0 then 1 else old(optind)
      ensures firstNonopt == lastNonopt == optind && nextchar == "" && initialized
      ensures ordering == OrderingFor(optstring, posixlyCorrect)
      ensures effective == if optstring != "" && optstring[0] in "-+" then optstring[1..] else optstring
    {
      if optind == 0 {
        optind := 1;
      }
      firstNonopt, lastNonopt := optind, optind;
      nextchar := "";
      effective := optstring;
      if optstring != "" && optstring[0] == '-' {
        ordering := ReturnInOrder;
        effective := optstring[1..];
      } else if optstring != "" && optstring[0] == '+' {
        ordering := RequireOrder;
        effective := optstring[1..];
      } else if posixlyCorrect {
        ordering := RequireOrder;
      } else {
        ordering := Permute;
      }
      initialized := true;
    }

    /** _getopt_internal with long_only = 0. */
    method Call(optstring: string, longopts: Option<seq<LongOption>>, posixlyCorrect: bool, charSigned: bool)
      returns (o: Outcome)
      requires optstring == "" || optstring[0] !in "-+"
      requires NoLongW(optstring)
      requires optind <= argv.Length && argv.Length >= 1
      requires !Starting() ==> Valid(Params(optstring, longopts, ordering, charSigned))
      modifies this`optind, this`nextchar, this`firstNonopt, this`lastNonopt, this`ordering, this`initialized, argv
      ensures argv[0] == old(argv[0]) && initialized
      ensures ordering == if old(Starting()) then OrderingFor(optstring, posixlyCorrect) else old(ordering)
      ensures var p := Params(optstring, longopts, ordering, charSigned);
              var k := if old(optind) == 0 then 1 else old(optind);
              var before := if old(Starting()) then Total(p, old(argv[..]), k, k, k, "") else old(Now(p));
              if before.events == [] then
                o == END && 1 <= optind <= argv.Length && Finished(before, argv[..], optind)
              else Valid(p) && Delivers(before, o, Now(p))
    {
      var effective := optstring;
      if optind == 0 || !initialized {
        effective := Initialize(optstring, posixlyCorrect);
      }
      o := Next(Params(effective, longopts, ordering, charSigned));
    }
  }

  ghost predicate NoneEnds(events: seq<Outcome>) {
    forall e | e in events :: e.ret != DONE
  }

  /** A full run: call until -1 is returned. Only an option whose own value is -1 cuts it short. */
  method Run(argv: array<string>, optstring: string, longopts: Option<seq<LongOption>>, posixlyCorrect: bool,
             charSigned: bool)
    returns (events: seq<Outcome>, optind: nat)
    requires argv.Length >= 1
    requires optstring == "" || optstring[0] !in "-+"
    requires NoLongW(optstring)
    modifies argv
    ensures var p := Params(optstring, longopts, if posixlyCorrect then RequireOrder else Permute, charSigned);
            var t := Parse(p, old(argv[1..]));
            && events <= t.events && NoneEnds(events)
            && (events == t.events <==> NoneEnds(t.events))
            && (events != t.events ==> t.events[|events|].ret == DONE)
            && (events == t.events ==>
                  argv[..] == [old(argv[0])] + t.consumed + t.operands && optind == 1 + |t.consumed|)
  {
    hide Total, Parse, NoLongW, Delivers, NoneEnds, Append, Finished, Scanner.Now;
    var scanner := new Scanner(argv);
    ghost var p := Params(optstring, longopts, OrderingFor(optstring, posixlyCorrect), charSigned);
    ghost var t := Total(p, argv[..], 1, 1, 1, "");
    ghost var pending := t;
    StartOfRun(p, argv[..]);
    events := [];
    var o := scanner.Call(optstring, longopts, posixlyCorrect, charSigned);
    while o.ret != DONE
      invariant scanner.initialized && scanner.ordering == p.ordering && argv[0] == old(argv[0])
      invariant t == Append(Parsed(events, [], []), pending) && NoneEnds(events)
      invariant if pending.events == [] then
                  o == END && 1 <= scanner.optind <= argv.Length && Finished(pending, argv[..], scanner.optind)
                else scanner.Valid(p) && Delivers(pending, o, scanner.Now(p))
      decreases |pending.events|
    {
      EventDelivered(t, events, pending, o, scanner.Now(p));
      events := events + [o];
      pending := scanner.Now(p);
      o := scanner.Call(optstring, longopts, posixlyCorrect, charSigned);
    }
    optind := scanner.optind;
    if pending.events == [] {
      RunOver(t, events, pending, argv[..], optind);
    } else {
      RunCutShort(t, events, pending, o, scanner.Now(p));
    }
  }

  lemma EventDelivered(t: Parsed, events: seq<Outcome>, pending: Parsed, o: Outcome, rest: Parsed)
    requires t == Append(Parsed(events, [], []), pending) && NoneEnds(events)
    requires Delivers(pending, o, rest) && o.ret != DONE
    ensures t == Append(Parsed(events + [o], [], []), rest) && NoneEnds(events + [o])
    ensures |rest.events| < |pending.events|
  {}

  lemma RunOver(t: Parsed, events: seq<Outcome>, pending: Parsed, argv: seq<string>, optind: nat)
    requires t == Append(Parsed(events, [], []), pending) && NoneEnds(events)
    requires 1 <= optind <= |argv| && Finished(pending, argv, optind)
    ensures events == t.events && NoneEnds(t.events) && optind == 1 + |t.consumed|
    ensures argv == [argv[0]] + t.consumed + t.operands
  {}

  lemma RunCutShort(t: Parsed, events: seq<Outcome>, pending: Parsed, o: Outcome, rest: Parsed)
    requires t == Append(Parsed(events, [], []), pending)
    requires Delivers(pending, o, rest) && o.ret == DONE
    ensures events <= t.events && events != t.events && t.events[|events|] == o && !NoneEnds(t.events)
  {}

  /** A long option given under this name delivers the value that ends a run. */
  predicate EndsRun(opts: seq<LongOption>, name: string) {
    match LongMatch(opts, name)
    case Ambiguous => false
    case NotFound => false
    case _ =>
      var opt := opts[LongMatch(opts, name).index];
      opt.flag.None? && opt.val == DONE && (name != "" || opt.hasArg != 0)
  }

  /** No option that can be given delivers the value that ends a run: not character 255 where
      char is signed, nor a long option under any of its names. */
  ghost predicate NoDoneValue(p: Params) {
    && (p.charSigned ==> Kind(p.optstring, LAST_CHAR).Unknown?)
    && (p.longopts.Some? ==> forall name | '=' !in name :: !EndsRun(p.longopts.value, name))
  }

  /** Enough for the table: no row without a flag variable has the value -1. */
  lemma TableWithoutDone(opts: seq<LongOption>, name: string)
    requires forall opt | opt in opts :: opt.flag.None? ==> opt.val != DONE
    ensures !EndsRun(opts, name)
  {}

  lemma {:induction false} ShortNeverEnd(p: Params, chars: string, next: Option<string>)
    requires chars != "" && NoDoneValue(p)
    ensures NoneEnds(ShortOptions(p, chars, next).events)
  {
    hide EndsRun;
    if |chars| > 1 {
      ShortNeverEnd(p, chars[1..], next);
    }
  }

  lemma LongNeverEnds(p: Params, text: string, next: Option<string>)
    requires p.longopts.Some? && NoDoneValue(p) && text != ""
    ensures NoneEnds(LongOptionOf(p, p.longopts.value, text, next).events)
  {
    hide LongMatch;
    assert !EndsRun(p.longopts.value, NameOf(text));
  }

  lemma {:induction false} ParseNeverEnds(p: Params, args: seq<string>)
    requires NoDoneValue(p)
    ensures NoneEnds(Parse(p, args).events)
  {
    hide ShortOptions, LongOptionOf, NoDoneValue;
    if args == [] || args[0] == "--" {
    } else if NonOption(args[0]) {
      ParseNeverEnds(p, args[1..]);
    } else {
      var next := Head(args[1..]);
      ShortNeverEnd(p, args[0][1..], next);
      if IsLong(p, args[0]) {
        LongNeverEnds(p, args[0][2..], next);
      }
      ParseNeverEnds(p, args[if OptionsOf(p, args[0], next).usesNext then 2 else 1..]);
    }
  }

  /** Where char is signed, the option character 255 is returned as -1. */
  lemma LastCharEnds(p: Params)
    requires p.charSigned && !Kind(p.optstring, LAST_CHAR).Unknown?
    ensures !NoneEnds(Parse(p, [['-', LAST_CHAR, 'x']]).events)
  {
    var arg := ['-', LAST_CHAR, 'x'];
    var d := OptionsOf(p, arg, None);
    assert arg[1..][0] == LAST_CHAR && Head([arg][1..]) == None;
    assert d.events[0].ret == DONE;
    OneArgument(p, arg);
  }

  lemma OneArgument(p: Params, arg: string)
    requires !NonOption(arg) && arg != "--"
    ensures OptionsOf(p, arg, None).events <= Parse(p, [arg]).events
  {
    assert Head([arg][1..]) == None;
  }

  /** A long option with the value -1 ends a run when it is given with an argument it accepts. */
  lemma LongEnds(p: Params, name: string)
    requires p.longopts.Some? && '=' !in name && EndsRun(p.longopts.value, name)
    ensures exists arg :: !NoneEnds(Parse(p, [arg]).events)
  {
    hide LongMatch, NameOf, ValueOf, Parse;
    var opt := p.longopts.value[LongMatch(p.longopts.value, name).index];
    var text := if opt.hasArg == 0 then name else name + "=";
    NameWithValue(name);
    var arg := "--" + text;
    assert arg[2..] == text && Head([arg][1..]) == None;
    var d := OptionsOf(p, arg, None);
    assert d.events[0].ret == DONE;
    OneArgument(p, arg);
    assert !NoneEnds(Parse(p, [arg]).events);
  }

  lemma NameWithValue(name: string)
    requires '=' !in name
    ensures NameOf(name) == name && ValueOf(name).None?
    ensures NameOf(name + "=") == name && ValueOf(name + "=") == Some("")
  {
    hide IndexOf;
    assert IndexOf(name, '=') == |name|;
    var text := name + "=";
    var i := IndexOf(text, '=');
    assert text[|name|] == '=';
    assert i == |name|;
    assert text[|name| + 1..] == "";
  }

  /** Every run delivers all its events if and only if no option delivers the value -1. */
  lemma NoRunIsCutShort(p: Params)
    ensures NoDoneValue(p) <==> forall args :: NoneEnds(Parse(p, args).events)
  {
    hide Parse, EndsRun;
    if NoDoneValue(p) {
      forall args ensures NoneEnds(Parse(p, args).events) {
        ParseNeverEnds(p, args);
      }
    } else if p.charSigned && !Kind(p.optstring, LAST_CHAR).Unknown? {
      LastCharEnds(p);
    } else {
      var name :| '=' !in name && EndsRun(p.longopts.value, name);
      LongEnds(p, name);
    }
  }

  lemma StartOfRun(p: Params, argv: seq<string>)
    requires |argv| >= 1
    ensures Total(p, argv, 1, 1, 1, "") == Parse(p, argv[1..]) == Append(Parsed([], [], []), Parse(p, argv[1..]))
    ensures NoneEnds([])
  {}
}
