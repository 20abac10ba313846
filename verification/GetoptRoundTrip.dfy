/** What a command line means, said without the parser: a command line is written from a list
    of items, each in keeping with optstring or the table of long options, and parsing it gives
    the items back. */
module GetoptRoundTrip {
  import opened Common
  import opened GetoptSpec

  // ----- declarations, read off the characters of optstring and the rows of the table

  /** The first c in optstring is at i. */
  ghost predicate FirstAt(optstring: string, c: char, i: nat) {
    i < |optstring| && optstring[i] == c && forall j | 0 <= j < i :: optstring[j] != c
  }

  ghost predicate ColonAt(optstring: string, i: nat) {
    i < |optstring| && optstring[i] == ':'
  }

  /** c is an option that takes no argument. */
  ghost predicate IsFlag(optstring: string, c: char) {
    c != ':' && exists i: nat :: FirstAt(optstring, c, i) && !ColonAt(optstring, i + 1)
  }

  /** One colon: an argument is required. */
  ghost predicate NeedsArgument(optstring: string, c: char) {
    c != ':' && exists i: nat :: FirstAt(optstring, c, i) && ColonAt(optstring, i + 1) && !ColonAt(optstring, i + 2)
  }

  /** Two colons: an argument is optional. */
  ghost predicate MayHaveArgument(optstring: string, c: char) {
    c != ':' && exists i: nat :: FirstAt(optstring, c, i) && ColonAt(optstring, i + 1) && ColonAt(optstring, i + 2)
  }

  ghost predicate IsUndeclared(optstring: string, c: char) {
    c == ':' || c !in optstring
  }

  lemma FirstIsIndex(optstring: string, c: char, i: nat)
    requires FirstAt(optstring, c, i)
    ensures IndexOf(optstring, c) == i
  {
    var k := IndexOf(optstring, c);
    assert forall n | 0 <= n < k :: optstring[n] != c by {
      assert forall n | 0 <= n < k :: optstring[n] in optstring[..k];
    }
  }

  lemma KindOfDeclared(optstring: string, c: char)
    ensures IsFlag(optstring, c) ==> Kind(optstring, c) == NoArgument
    ensures NeedsArgument(optstring, c) ==> Kind(optstring, c) == Required
    ensures MayHaveArgument(optstring, c) ==> Kind(optstring, c) == Optional
    ensures IsUndeclared(optstring, c) ==> Kind(optstring, c) == Unknown
  {
    hide IndexOf;
    forall i: nat | FirstAt(optstring, c, i)
      ensures IndexOf(optstring, c) == i
    {
      FirstIsIndex(optstring, c, i);
    }
  }

  /** A long option given as name is row i: the first row of that name, or else the only row
      whose name starts so. */
  ghost predicate Names(opts: seq<LongOption>, name: string, i: nat) {
    && i < |opts|
    && if opts[i].name == name then forall j | 0 <= j < i :: opts[j].name != name
       else name <= opts[i].name && forall j | 0 <= j < |opts| && j != i :: !(name <= opts[j].name)
  }

  /** No row is called so, and none or several start so. */
  ghost predicate NamesNothing(opts: seq<LongOption>, name: string) {
    && (forall j | 0 <= j < |opts| :: opts[j].name != name)
    && ((forall j | 0 <= j < |opts| :: !(name <= opts[j].name))
        || exists i, j | 0 <= i < j < |opts| :: name <= opts[i].name && name <= opts[j].name)
  }

  lemma MatchOfNamed(opts: seq<LongOption>, name: string, i: nat)
    requires Names(opts, name, i)
    ensures LongMatch(opts, name) == if opts[i].name == name then Exact(i) else Unique(i)
  {
    var m := if opts[i].name == name then Exact(i) else Unique(i);
    assert forall j | 0 <= j < |opts| :: opts[j].name == name ==> name <= opts[j].name;
    MatchIsDetermined(opts, name, LongMatch(opts, name), m);
  }

  lemma MatchOfNothing(opts: seq<LongOption>, name: string)
    requires NamesNothing(opts, name)
    ensures LongMatch(opts, name) in {Ambiguous, NotFound}
  {
    assert forall j | 0 <= j < |opts| :: Abbreviates(opts, name, j) <==> name <= opts[j].name;
  }

  // ----- items and how they are written

  /** An option argument, or its absence, at the end of a cluster. */
  datatype Tail = NoTail | Attached(c: char, arg: string) | Separate(c: char, arg: string) | Absent(c: char)

  datatype Value = NoValue | Equals(value: string) | Next(value: string)

  datatype Item =
    | Operand(text: string)
    | Cluster(flags: string, tail: Tail)
    | Long(name: string, row: nat, value: Value)
    | BadLong(name: string, value: Value)

  /** How a command line ends: nothing more, -- and operands, or an option short of its argument. */
  datatype End =
    | Nothing
    | Dashes(rest: seq<string>)
    | ShortLacks(flags: string, c: char)
    | LongLacks(name: string, row: nat)

  function LongText(name: string, value: Value): string {
    if value.Equals? then "--" + name + "=" + value.value else "--" + name
  }

  function ClusterText(flags: string, tail: Tail): string {
    match tail
    case NoTail => "-" + flags
    case Attached(c, arg) => "-" + flags + [c] + arg
    case Separate(c, _) => "-" + flags + [c]
    case Absent(c) => "-" + flags + [c]
  }

  function Written(item: Item): seq<string> {
    match item
    case Operand(text) => [text]
    case Cluster(flags, tail) =>
      if tail.Separate? then [ClusterText(flags, tail), tail.arg] else [ClusterText(flags, tail)]
    case Long(name, _, value) => if value.Next? then [LongText(name, value), value.value] else [LongText(name, value)]
    case BadLong(name, value) => [LongText(name, value)]
  }

  function WrittenEnd(end: End): seq<string> {
    match end
    case Nothing => []
    case Dashes(rest) => ["--"] + rest
    case ShortLacks(flags, c) => ["-" + flags + [c]]
    case LongLacks(name, _) => ["--" + name]
  }

  function CommandLine(items: seq<Item>, end: End): seq<string> {
    if items == [] then WrittenEnd(end) else Written(items[0]) + CommandLine(items[1..], end)
  }

  // ----- in keeping with the declarations

  /** A cluster does not look like -- or, if there is a table, like a long option. */
  ghost predicate LooksShort(p: Params, chars: string) {
    chars != "" && chars != "-" && (p.longopts.Some? ==> chars[0] != '-')
  }

  ghost predicate FlagsAreKept(p: Params, flags: string) {
    forall k | 0 <= k < |flags| :: IsFlag(p.optstring, flags[k]) || IsUndeclared(p.optstring, flags[k])
  }

  ghost predicate TailIsKept(p: Params, tail: Tail) {
    match tail
    case NoTail => true
    case Attached(c, arg) => arg != "" && (NeedsArgument(p.optstring, c) || MayHaveArgument(p.optstring, c))
    case Separate(c, _) => NeedsArgument(p.optstring, c)
    case Absent(c) => MayHaveArgument(p.optstring, c)
  }

  ghost predicate IsKept(p: Params, item: Item) {
    match item
    case Operand(text) => text == "" || text[0] != '-' || text == "-"
    case Cluster(flags, tail) =>
      LooksShort(p, ClusterText(flags, tail)[1..]) && FlagsAreKept(p, flags) && TailIsKept(p, tail)
    case Long(name, row, value) =>
      && p.longopts.Some? && '=' !in name && Names(p.longopts.value, name, row)
      && (value.Next? ==> p.longopts.value[row].hasArg == 1)
      && (value.NoValue? ==> p.longopts.value[row].hasArg != 1)
      && (value.Equals? || name != "")
    case BadLong(name, value) =>
      && p.longopts.Some? && '=' !in name && NamesNothing(p.longopts.value, name)
      && !value.Next? && (value.NoValue? ==> name != "")
  }

  ghost predicate EndIsKept(p: Params, end: End) {
    match end
    case Nothing => true
    case Dashes(_) => true
    case ShortLacks(flags, c) =>
      LooksShort(p, flags + [c]) && FlagsAreKept(p, flags) && NeedsArgument(p.optstring, c)
    case LongLacks(name, row) =>
      && p.longopts.Some? && '=' !in name && name != "" && Names(p.longopts.value, name, row)
      && p.longopts.value[row].hasArg == 1
  }

  // ----- what is delivered

  /** The character as a C int. */
  function AsInt(p: Params, c: char): int {
    if p.charSigned && 128 <= c as int < 256 then c as int - 256 else c as int
  }

  /** A flag delivers itself, an undeclared character '?' and itself in optopt. */
  function FlagEvents(p: Params, flags: string): seq<Outcome> {
    if flags == "" then [] else
      var c := flags[0];
      [if c != ':' && c in p.optstring then Outcome(AsInt(p, c), None, None, None, None)
       else Outcome('?' as int, None, Some(AsInt(p, c)), None, None)]
      + FlagEvents(p, flags[1..])
  }

  function TailEvents(p: Params, tail: Tail): seq<Outcome> {
    match tail
    case NoTail => []
    case Attached(c, arg) => [Outcome(AsInt(p, c), Some(arg), None, None, None)]
    case Separate(c, arg) => [Outcome(AsInt(p, c), Some(arg), None, None, None)]
    case Absent(c) => [Outcome(AsInt(p, c), None, None, None, None)]
  }

  /** A long option delivers its val, or 0 and stores val in its flag variable. */
  function LongEvent(opts: seq<LongOption>, row: nat, value: Value): Outcome
    requires row < |opts|
  {
    var o := opts[row];
    var arg := if value.NoValue? then None else Some(value.value);
    if value.Equals? && o.hasArg == 0 then Outcome('?' as int, None, Some(o.val), None, None)
    else if o.flag.Some? then Outcome(0, arg, None, Some(row), Some((o.flag.value, o.val)))
    else Outcome(o.val, arg, None, Some(row), None)
  }

  function Events(p: Params, item: Item): seq<Outcome>
    requires item.Long? ==> p.longopts.Some? && item.row < |p.longopts.value|
  {
    match item
    case Operand(text) => if p.ordering.ReturnInOrder? then [Outcome(1, Some(text), None, None, None)] else []
    case Cluster(flags, tail) => FlagEvents(p, flags) + TailEvents(p, tail)
    case Long(_, row, value) => [LongEvent(p.longopts.value, row, value)]
    case BadLong(_, _) => [Outcome('?' as int, None, Some(0), None, None)]
  }

  /** A missing argument is reported as ':' if optstring starts so, else as '?'. */
  function LackEvent(p: Params, optopt: int): Outcome {
    Outcome(if ":" <= p.optstring then ':' as int else '?' as int, None, Some(optopt), None, None)
  }

  function EndMeaning(p: Params, end: End): Parsed
    requires end.LongLacks? ==> p.longopts.Some? && end.row < |p.longopts.value|
  {
    match end
    case Nothing => Parsed([], [], [])
    case Dashes(rest) => Parsed([], ["--"], rest)
    case ShortLacks(flags, c) => Parsed(FlagEvents(p, flags) + [LackEvent(p, AsInt(p, c))], ["-" + flags + [c]], [])
    case LongLacks(name, row) => Parsed([LackEvent(p, p.longopts.value[row].val)], ["--" + name], [])
  }

  ghost predicate AllKept(p: Params, items: seq<Item>) {
    forall k | 0 <= k < |items| :: IsKept(p, items[k])
  }

  /** What the list of items means under each ordering. */
  ghost function Meaning(p: Params, items: seq<Item>, end: End): Parsed
    requires AllKept(p, items) && EndIsKept(p, end)
  {
    if items == [] then EndMeaning(p, end)
    else if items[0].Operand? && p.ordering.RequireOrder? then Parsed([], [], CommandLine(items, end))
    else
      var m := Meaning(p, items[1..], end);
      if items[0].Operand? && p.ordering.Permute? then Parsed(m.events, m.consumed, [items[0].text] + m.operands)
      else Parsed(Events(p, items[0]) + m.events, Written(items[0]) + m.consumed, m.operands)
  }

  // ----- clusters

  lemma OneFlag(p: Params, c: char)
    requires IsFlag(p.optstring, c) || IsUndeclared(p.optstring, c)
    ensures Kind(p.optstring, c) == if c != ':' && c in p.optstring then NoArgument else Unknown
  {
    KindOfDeclared(p.optstring, c);
  }

  // The step of the decoder over a flag
  lemma FlagDecoded(p: Params, chars: string, next: Option<string>)
    requires chars != "" && (IsFlag(p.optstring, chars[0]) || IsUndeclared(p.optstring, chars[0]))
    ensures var first := FlagEvents(p, [chars[0]]);
            ShortOptions(p, chars, next) ==
              if |chars| == 1 then Decoded(first, false)
              else
                var d := ShortOptions(p, chars[1..], next);
                Decoded(first + d.events, d.usesNext)
  {
    hide Kind, IsFlag, IsUndeclared;
    OneFlag(p, chars[0]);
    assert FlagEvents(p, "") == [];
  }

  lemma FlagsCons(p: Params, flags: string)
    requires flags != ""
    ensures FlagEvents(p, flags) == FlagEvents(p, [flags[0]]) + FlagEvents(p, flags[1..])
  {
    assert [flags[0]][1..] == "";
  }

  /** Leading flags come first; the rest of the cluster follows. */
  lemma {:induction false} FlagsFirst(p: Params, flags: string, more: string, next: Option<string>)
    requires FlagsAreKept(p, flags) && more != ""
    ensures var d := ShortOptions(p, more, next);
            ShortOptions(p, flags + more, next) == Decoded(FlagEvents(p, flags) + d.events, d.usesNext)
  {
    hide ShortOptions, IsFlag, IsUndeclared;
    if flags == "" {
      assert flags + more == more;
    } else {
      FlagsFirst(p, flags[1..], more, next);
      assert (flags + more)[1..] == flags[1..] + more;
      FlagDecoded(p, flags + more, next);
      FlagsCons(p, flags);
    }
  }

  lemma {:induction false} FlagsOnly(p: Params, flags: string, next: Option<string>)
    requires FlagsAreKept(p, flags) && flags != ""
    ensures ShortOptions(p, flags, next) == Decoded(FlagEvents(p, flags), false)
  {
    hide ShortOptions, IsFlag, IsUndeclared;
    FlagDecoded(p, flags, next);
    FlagsCons(p, flags);
    if |flags| > 1 {
      FlagsOnly(p, flags[1..], next);
    }
  }

  // The end of a cluster on its own
  function TailText(tail: Tail): string
    requires !tail.NoTail?
  {
    if tail.Attached? then [tail.c] + tail.arg else [tail.c]
  }

  lemma TailDecoded(p: Params, tail: Tail, next: Option<string>)
    requires !tail.NoTail? && TailIsKept(p, tail)
    requires tail.Separate? ==> next == Some(tail.arg)
    ensures ShortOptions(p, TailText(tail), next) == Decoded(TailEvents(p, tail), tail.Separate?)
  {
    hide Kind, NeedsArgument, MayHaveArgument;
    var more := TailText(tail);
    KindOfDeclared(p.optstring, tail.c);
    assert more[0] == tail.c && more[1..] == if tail.Attached? then tail.arg else "";
  }

  lemma ClusterSplits(flags: string, tail: Tail)
    ensures ClusterText(flags, tail) != ""
    ensures ClusterText(flags, tail)[1..] == if tail.NoTail? then flags else flags + TailText(tail)
    ensures !tail.NoTail? ==> TailText(tail) != ""
  {
    if tail.Attached? {
      assert "-" + flags + [tail.c] + tail.arg == "-" + (flags + ([tail.c] + tail.arg));
    }
  }

  lemma ClusterDecoded(p: Params, flags: string, tail: Tail, next: Option<string>)
    requires FlagsAreKept(p, flags) && TailIsKept(p, tail) && (tail.NoTail? ==> flags != "")
    requires tail.Separate? ==> next == Some(tail.arg)
    ensures ShortOptions(p, ClusterText(flags, tail)[1..], next)
         == Decoded(FlagEvents(p, flags) + TailEvents(p, tail), tail.Separate?)
  {
    hide ShortOptions, FlagsAreKept, TailIsKept, FlagEvents, ClusterText, TailText;
    ClusterSplits(flags, tail);
    if tail.NoTail? {
      FlagsOnly(p, flags, next);
    } else {
      FlagsFirst(p, flags, TailText(tail), next);
      TailDecoded(p, tail, next);
    }
  }

  // ----- long options

  lemma NameAndValue(name: string, value: Value)
    requires '=' !in name
    ensures var text := LongText(name, value)[2..];
            NameOf(text) == name && ValueOf(text) == if value.Equals? then Some(value.value) else None
  {
    hide IndexOf;
    var text := LongText(name, value)[2..];
    assert text == if value.Equals? then name + "=" + value.value else name;
    var i := IndexOf(text, '=');
    assert forall k | 0 <= k < |name| :: text[k] == name[k];
    if value.Equals? {
      assert text[|name|] == '=';
      assert forall k | 0 <= k < i :: text[k] in text[..i];
      assert text[|name| + 1..] == value.value;
    }
    assert text[..|name|] == name;
  }

  lemma LongDecoded(p: Params, name: string, row: nat, value: Value, next: Option<string>)
    requires IsKept(p, Long(name, row, value))
    requires value.Next? ==> next == Some(value.value)
    ensures LongOptionOf(p, p.longopts.value, LongText(name, value)[2..], next)
         == Decoded([LongEvent(p.longopts.value, row, value)], value.Next?)
  {
    hide NameOf, ValueOf, LongMatch, Names, LongText;
    NameAndValue(name, value);
    MatchOfNamed(p.longopts.value, name, row);
  }

  lemma BadLongDecoded(p: Params, name: string, value: Value, next: Option<string>)
    requires IsKept(p, BadLong(name, value))
    ensures LongOptionOf(p, p.longopts.value, LongText(name, value)[2..], next)
         == Decoded([Outcome('?' as int, None, Some(0), None, None)], false)
  {
    hide NameOf, ValueOf, LongMatch, NamesNothing, LongText;
    NameAndValue(name, value);
    MatchOfNothing(p.longopts.value, name);
  }

  // ----- one item at the front of a command line

  lemma ParseOption(p: Params, args: seq<string>)
    requires args != [] && !NonOption(args[0]) && args[0] != "--"
    ensures var d := OptionsOf(p, args[0], Head(args[1..]));
            var n := if d.usesNext then 2 else 1;
            Parse(p, args) == Append(Parsed(d.events, args[..n], []), Parse(p, args[n..]))
  {
    hide OptionsOf;
  }

  lemma ItemDecoded(p: Params, item: Item, next: Option<string>)
    requires IsKept(p, item) && !item.Operand?
    requires |Written(item)| == 2 ==> next == Some(Written(item)[1])
    ensures !NonOption(Written(item)[0]) && Written(item)[0] != "--"
    ensures OptionsOf(p, Written(item)[0], next) == Decoded(Events(p, item), |Written(item)| == 2)
  {
    match item
    case Cluster(flags, tail) =>
      ClusterDecoded(p, flags, tail, next);
    case Long(name, row, value) =>
      LongDecoded(p, name, row, value, next);
    case BadLong(name, value) =>
      BadLongDecoded(p, name, value, next);
  }

  lemma ItemParsed(p: Params, item: Item, args: seq<string>)
    requires IsKept(p, item) && !item.Operand?
    ensures Parse(p, Written(item) + args) == Append(Parsed(Events(p, item), Written(item), []), Parse(p, args))
  {
    hide OptionsOf, Parse, IsKept, Events;
    var all := Written(item) + args;
    ItemDecoded(p, item, Head(all[1..]));
    ParseOption(p, all);
    assert all[..|Written(item)|] == Written(item) && all[|Written(item)|..] == args;
  }

  // ----- the round trip

  lemma EndParsed(p: Params, end: End)
    requires EndIsKept(p, end)
    ensures Parse(p, WrittenEnd(end)) == EndMeaning(p, end)
  {
    match end
    case Nothing =>
    case Dashes(rest) =>
    case ShortLacks(flags, c) =>
      ShortLacksParsed(p, flags, c);
    case LongLacks(name, row) =>
      LongLacksParsed(p, name, row);
  }

  lemma ShortLacksParsed(p: Params, flags: string, c: char)
    requires EndIsKept(p, ShortLacks(flags, c))
    ensures Parse(p, ["-" + flags + [c]]) == EndMeaning(p, ShortLacks(flags, c))
  {
    hide ShortOptions, Kind, IsFlag, IsUndeclared, NeedsArgument;
    var arg := "-" + flags + [c];
    assert arg[1..] == flags + [c];
    FlagsFirst(p, flags, [c], None);
    KindOfDeclared(p.optstring, c);
    LackDecoded(p, c);
    ParseOption(p, [arg]);
    assert Head([arg][1..]) == None;
  }

  lemma LackDecoded(p: Params, c: char)
    requires NeedsArgument(p.optstring, c)
    ensures ShortOptions(p, [c], None) == Decoded([LackEvent(p, AsInt(p, c))], false)
  {
    KindOfDeclared(p.optstring, c);
  }

  lemma LongLacksParsed(p: Params, name: string, row: nat)
    requires EndIsKept(p, LongLacks(name, row))
    ensures Parse(p, ["--" + name]) == EndMeaning(p, LongLacks(name, row))
  {
    hide LongMatch, NameOf, ValueOf, Names;
    var arg := "--" + name;
    assert arg[2..] == name && LongText(name, NoValue) == arg;
    NameAndValue(name, NoValue);
    MatchOfNamed(p.longopts.value, name, row);
    ParseOption(p, [arg]);
    assert Head([arg][1..]) == None;
  }

  lemma OperandParsed(p: Params, item: Item, args: seq<string>)
    requires IsKept(p, item) && item.Operand?
    ensures Written(item) == [item.text]
    ensures Parse(p, [item.text] + args) == match p.ordering
              case Permute => Append(Parsed([], [], [item.text]), Parse(p, args))
              case RequireOrder => Parsed([], [], [item.text] + args)
              case ReturnInOrder => Append(Parsed(Events(p, item), [item.text], []), Parse(p, args))
  {
    var all := [item.text] + args;
    assert all[..1] == [item.text] && all[1..] == args && all[0] != "--";
  }

  /** Parsing a command line written from items gives back what they mean, under every ordering. */
  lemma {:induction false} RoundTrip(p: Params, items: seq<Item>, end: End)
    requires AllKept(p, items) && EndIsKept(p, end)
    ensures Parse(p, CommandLine(items, end)) == Meaning(p, items, end)
  {
    hide Parse, Written, WrittenEnd, IsKept, EndIsKept, Events, EndMeaning;
    if items == [] {
      EndParsed(p, end);
    } else {
      RoundTrip(p, items[1..], end);
      var args := CommandLine(items[1..], end);
      if items[0].Operand? {
        OperandParsed(p, items[0], args);
      } else {
        ItemParsed(p, items[0], args);
      }
    }
  }

  lemma OneOption(p: Params, c: char, i: nat, arg: string)
    requires c != '-' && c != ':' && c as int < 128 && FirstAt(p.optstring, c, i)
    requires ColonAt(p.optstring, i + 1) && !ColonAt(p.optstring, i + 2)
    ensures var item := Cluster("", Separate(c, arg));
            && IsKept(p, item) && Written(item) == [['-', c], arg]
            && Events(p, item) == [Outcome(c as int, Some(arg), None, None, None)]
  {
    assert NeedsArgument(p.optstring, c);
    assert ClusterText("", Separate(c, arg)) == ['-', c];
  }

  /** One colon, not two: the next argument belongs to the option, whatever it looks like. */
  lemma SeparateArgument(p: Params, c: char, i: nat, arg: string, rest: seq<string>)
    requires c != '-' && c != ':' && c as int < 128 && FirstAt(p.optstring, c, i)
    requires i + 1 < |p.optstring| && p.optstring[i + 1] == ':'
    requires i + 2 < |p.optstring| ==> p.optstring[i + 2] != ':'
    ensures var r := Parse(p, rest);
            Parse(p, [['-', c], arg] + rest)
            == Parsed([Outcome(c as int, Some(arg), None, None, None)] + r.events,
                      [['-', c], arg] + r.consumed, r.operands)
  {
    hide Parse, IsKept, Events, Written;
    var item := Cluster("", Separate(c, arg));
    OneOption(p, c, i, arg);
    ItemParsed(p, item, rest);
  }
}
