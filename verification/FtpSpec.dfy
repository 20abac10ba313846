/** What an FTP session may say on its control connection. */
module FtpSpec {
  import opened Common

  datatype Verb = Rein | User | Pass | Acct | Type | Pasv | Port | Syst | Pwd
                | Rest | Retr | List | Nlst | Stor | Cwd

  datatype Command = Command(verb: Verb, arg: string)

  datatype Server = Unsure | TcpcUnsure | Generic | Machten | Unix | Vms | Cms | Dcts | Tcpc | PeterLewis | Ncsa | WinNt

  datatype DataType = Ascii | Image | LongList | NameList

  function Count(wire: seq<Command>, verb: Verb): nat {
    if wire == [] then 0
    else Count(wire[..|wire| - 1], verb) + if wire[|wire| - 1].verb == verb then 1 else 0
  }

  predicate NamesPath(verb: Verb) {
    verb.Retr? || verb.List? || verb.Nlst? || verb.Stor? || verb.Cwd?
  }

  /** The commands that name a path. */
  function PathCommands(wire: seq<Command>): seq<Command> {
    if wire == [] then []
    else
      var c := wire[|wire| - 1];
      PathCommands(wire[..|wire| - 1]) + if NamesPath(c.verb) then [c] else []
  }

  lemma OneMore(wire: seq<Command>, c: Command)
    ensures forall verb :: Count(wire + [c], verb) == Count(wire, verb) + if c.verb == verb then 1 else 0
    ensures PathCommands(wire + [c])
         == PathCommands(wire) + if NamesPath(c.verb) then [c] else []
  {}

  /** The first slash at or after offset, or the end of the path. */
  function NextSlash(file: string, offset: nat): (end: nat)
    requires offset <= |file|
    ensures offset <= end <= |file| && '/' !in file[offset..end]
    ensures end < |file| ==> file[end] == '/'
  {
    var i := IndexOf(file[offset..], '/');
    assert file[offset..offset + i] == file[offset..][..i];
    offset + i
  }

  /** Walking down file from offset: change to one directory after the other, then transfer. */
  function Walk(verb: Verb, file: string, offset: nat): (w: seq<Command>)
    requires offset <= |file|
    ensures w != []
    decreases |file| - offset
  {
    var end := NextSlash(file, offset);
    if end == |file| then [Command(verb, file[offset..])]
    else [Command(Cwd, file[offset..end])] + Walk(verb, file, end + 1)
  }

  /** Ask for the whole path; if that is refused, walk down from root. */
  function Plan(verb: Verb, root: string, file: string): (plan: seq<Command>)
    ensures |plan| >= 2
  {
    [Command(verb, file), Command(Cwd, root)] + if file == "" then [] else Walk(verb, file, 1)
  }

  /** The arguments joined with slashes. */
  function Rejoined(commands: seq<Command>): string {
    if commands == [] then ""
    else if |commands| == 1 then commands[0].arg
    else commands[0].arg + "/" + Rejoined(commands[1..])
  }

  function Slashes(s: string): nat {
    if s == "" then 0 else (if s[0] == '/' then 1 else 0) + Slashes(s[1..])
  }

  lemma {:induction false} SlashesConcat(s: string, t: string)
    ensures Slashes(s + t) == Slashes(s) + Slashes(t)
  {
    if s == "" {
      assert s + t == t;
    } else {
      SlashesConcat(s[1..], t);
      assert (s + t)[1..] == s[1..] + t;
    }
  }

  lemma {:induction false} NoSlashes(s: string)
    requires '/' !in s
    ensures Slashes(s) == 0
  {
    if s != "" {
      NoSlashes(s[1..]);
    }
  }

  /** Directories, then the transfer, one path component each. */
  predicate ComponentWise(w: seq<Command>, verb: Verb) {
    && w != []
    && (forall k | 0 <= k < |w| :: '/' !in w[k].arg)
    && (forall k | 0 <= k < |w| :: w[k].verb == if k + 1 < |w| then Cwd else verb)
  }

  lemma Prepended(c: Command, w: seq<Command>, verb: Verb)
    requires c.verb == Cwd && '/' !in c.arg && ComponentWise(w, verb)
    ensures ComponentWise([c] + w, verb)
    ensures Rejoined([c] + w) == c.arg + "/" + Rejoined(w)
  {}

  lemma LastComponent(c: Command)
    requires '/' !in c.arg
    ensures ComponentWise([c], c.verb) && Rejoined([c]) == c.arg && Slashes(c.arg) == 0
  {
    NoSlashes(c.arg);
  }

  lemma SplitAtSlash(file: string, offset: nat, end: nat)
    requires offset <= end < |file| && '/' !in file[offset..end] && file[end] == '/'
    ensures file[offset..] == file[offset..end] + "/" + file[end + 1..]
    ensures Slashes(file[offset..]) == 1 + Slashes(file[end + 1..])
  {
    NoSlashes(file[offset..end]);
    SlashesConcat(file[offset..end], file[end..]);
    assert file[offset..] == file[offset..end] + file[end..] && file[end..][1..] == file[end + 1..];
  }

  lemma WalkStep(verb: Verb, file: string, offset: nat)
    requires offset <= |file|
    ensures var end := NextSlash(file, offset);
            Walk(verb, file, offset) ==
              if end == |file| then [Command(verb, file[offset..])]
              else [Command(Cwd, file[offset..end])] + Walk(verb, file, end + 1)
  {}

  lemma {:induction false} WalkRejoins(verb: Verb, file: string, offset: nat)
    requires offset <= |file|
    ensures Rejoined(Walk(verb, file, offset)) == file[offset..]
    ensures |Walk(verb, file, offset)| == 1 + Slashes(file[offset..])
    ensures ComponentWise(Walk(verb, file, offset), verb)
    decreases |file| - offset
  {
    hide Slashes, NextSlash, Walk, Rejoined, ComponentWise;
    WalkStep(verb, file, offset);
    var end := NextSlash(file, offset);
    if end == |file| {
      assert file[offset..] == file[offset..end];
      LastComponent(Command(verb, file[offset..]));
    } else {
      WalkRejoins(verb, file, end + 1);
      SplitAtSlash(file, offset, end);
      Prepended(Command(Cwd, file[offset..end]), Walk(verb, file, end + 1), verb);
    }
  }

  /** On a server whose root is `/` the directories and the last argument spell the path
      again, with one CWD for every slash, exactly if the path starts with a slash. */
  lemma FallbackSpellsPath(verb: Verb, file: string)
    requires file != ""
    ensures var w := Plan(verb, "/", file)[2..];
            && ComponentWise(w, verb)
            && ("/" + Rejoined(w) == file <==> file[0] == '/')
            && (|w| == Slashes(file) <==> file[0] == '/')
  {
    hide Walk, Rejoined, ComponentWise;
    assert Plan(verb, "/", file)[2..] == Walk(verb, file, 1);
    WalkRejoins(verb, file, 1);
    assert file == [file[0]] + file[1..];
  }

  lemma {:induction false} CountConcat(a: seq<Command>, b: seq<Command>, verb: Verb)
    ensures Count(a + b, verb) == Count(a, verb) + Count(b, verb)
  {
    if b == [] {
      assert a + b == a;
    } else {
      CountConcat(a, b[..|b| - 1], verb);
      assert (a + b)[..|a + b| - 1] == a + b[..|b| - 1];
    }
  }

  lemma {:induction false} CountPathCommands(wire: seq<Command>, verb: Verb)
    requires NamesPath(verb)
    ensures Count(PathCommands(wire), verb) == Count(wire, verb)
  {
    if wire != [] {
      var most, c := wire[..|wire| - 1], wire[|wire| - 1];
      hide Count, PathCommands;
      CountPathCommands(most, verb);
      assert wire == most + [c];
      OneMore(most, c);
      OneMore(PathCommands(most), c);
      assert PathCommands(most) + [] == PathCommands(most);
    }
  }

  lemma {:induction false} CountComponents(w: seq<Command>, verb: Verb)
    requires ComponentWise(w, verb) && verb != Cwd
    ensures Count(w, Cwd) == |w| - 1
  {
    if |w| == 1 {
      assert w[..0] == [];
    } else {
      var rest := w[1..];
      CountComponents(rest, verb);
      CountConcat(w[..1], rest, Cwd);
      assert w == w[..1] + rest;
      assert w[..1][..0] == [];
    }
  }

  /** At most one CWD for every slash of the path, at every moment of a session. */
  lemma OneCwdPerSlash(wire: seq<Command>, verb: Verb, root: string, file: string)
    requires file != "" && file[0] == '/' && verb != Cwd
    requires PathCommands(wire) <= Plan(verb, root, file)
    ensures Count(wire, Cwd) <= Slashes(file)
  {
    hide Walk, ComponentWise, PathCommands, Count;
    var path, plan := PathCommands(wire), Plan(verb, root, file);
    var w, start := Walk(verb, file, 1), [Command(verb, file), Command(Cwd, root)];
    WalkRejoins(verb, file, 1);
    CountComponents(w, verb);
    CountPathCommands(wire, Cwd);
    assert plan == path + plan[|path|..];
    CountConcat(path, plan[|path|..], Cwd);
    CountConcat(start, w, Cwd);
    CountStart(Command(verb, file), Command(Cwd, root));
    assert file == [file[0]] + file[1..];
  }

  lemma CountStart(c: Command, d: Command)
    requires c.verb != Cwd && d.verb == Cwd
    ensures Count([c, d], Cwd) == 1
  {
    assert [c, d] == [] + [c] + [d];
    OneMore([], c);
    OneMore([] + [c], d);
  }
}
