/** The conversation on the control connection: which command may follow which reply, and what
    it may carry. */
module FtpTalk {
  import opened Common
  import opened FtpSpec

  datatype Status = WouldBlock | Pending | Ok | Loaded | Closed | Interrupted | TimedOut | Error

  datatype Method = Get | Put | OtherMethod

  datatype TransferMode = DefaultMode | AsciiMode | BinaryMode | DirMode

  /** What the request and the settings fix. */
  datatype Request = Request(file: string, verb: Method, mode: TransferMode, urlType: char, hasCallback: bool,
                             restart: Option<string>, passiveMode: bool, cached: Option<Server>, foreignClass: bool)

  /** What one call into the network or to the user comes back with. code and text are set
      by a complete reply; address tells whether six numbers can be read off it, already whether
      it is a single line with the word in it. */
  datatype Answer = Answer(status: Status, code: nat, text: string, address: bool, already: bool, secret: string)

  /** The next answer; nothing to be had yet is an answer too. */
  function Upcoming(script: seq<Answer>): Answer {
    if script == [] then Answer(WouldBlock, 0, "", false, false, "") else script[0]
  }

  /** What a session is given: name and password, and all that the outside will answer. */
  datatype Given = Given(uid: string, passwd: string, script: seq<Answer>)

  /** A command sent, a complete reply received, or a reply lost to a failed read. */
  datatype Turn = Said(command: Command) | Heard(code: nat, text: string, already: bool) | Lost

  function Commands(talk: seq<Turn>): seq<Command> {
    if talk == [] then []
    else
      var last := talk[|talk| - 1];
      Commands(talk[..|talk| - 1]) + if last.Said? then [last.command] else []
  }

  /** The verb of the last command. */
  function Prior(talk: seq<Turn>): Option<Verb> {
    if talk == [] then None
    else
      var last := talk[|talk| - 1];
      if last.Said? then Some(last.command.verb) else Prior(talk[..|talk| - 1])
  }

  /** The verb of the command before that. */
  function Earlier(talk: seq<Turn>): Option<Verb> {
    if talk == [] then None
    else if talk[|talk| - 1].Said? then Prior(talk[..|talk| - 1])
    else Earlier(talk[..|talk| - 1])
  }

  /** The code of the last reply, if the last command was answered. */
  function Code(talk: seq<Turn>): Option<nat> {
    if talk != [] && talk[|talk| - 1].Heard? then Some(talk[|talk| - 1].code) else None
  }

  /** The last turn was the command verb. */
  predicate Awaits(talk: seq<Turn>, verb: Verb) {
    talk != [] && talk[|talk| - 1].Said? && Prior(talk) == Some(verb)
  }

  /** The last command was verb and the reply to it has a code from low to high. */
  predicate Got(talk: seq<Turn>, verb: Verb, low: nat, high: nat) {
    Prior(talk) == Some(verb) && Code(talk).Some? && low <= Code(talk).value <= high
  }

  predicate SaysAlready(talk: seq<Turn>) {
    talk != [] && talk[|talk| - 1].Heard? && talk[|talk| - 1].already
  }

  /** The server's greeting was positive; a cached connection is reset instead. */
  predicate Greeted(r: Request, talk: seq<Turn>) {
    r.cached.None? && Prior(talk).None? && Code(talk).Some? && 200 <= Code(talk).value <= 299
  }

  /** The user counts as logged in: accepted at once, with a password or with an account; already
      logged in; or the reset was refused with other than 502. */
  predicate LoggedIn(talk: seq<Turn>) {
    || Got(talk, User, 200, 299) || Got(talk, Pass, 200, 299) || Got(talk, Acct, 200, 299)
    || (Got(talk, User, 530, 530) && (SaysAlready(talk) || Earlier(talk) == Some(Rein)))
    || (Prior(talk) == Some(Rein) && Code(talk).Some?
        && !(200 <= Code(talk).value <= 299) && Code(talk).value != 502)
  }

  /** The request is for a directory. */
  predicate Listing(r: Request) {
    r.mode.DirMode? || (r.mode.DefaultMode? && (r.urlType == 'd' || r.urlType == 'D'))
  }

  /** The data connection is to be set up: TYPE was accepted, or a directory needs none. */
  predicate Typed(r: Request, talk: seq<Turn>) {
    if Listing(r) then LoggedIn(talk) else Got(talk, Type, 200, 299)
  }

  /** The data connection is agreed on. */
  predicate Connected(talk: seq<Turn>) {
    Got(talk, Pasv, 227, 227) || Got(talk, Port, 200, 299)
  }

  /** The server was asked what it is, whether it answered or not. */
  predicate Inquired(r: Request, talk: seq<Turn>) {
    Listing(r) && (Prior(talk) == Some(Syst) || Prior(talk) == Some(Pwd))
  }

  predicate Transfers(verb: Verb) { verb.Retr? || verb.List? || verb.Nlst? || verb.Stor? }

  /** The file may be asked for: for the first time, or after a change of directory. */
  predicate Prepared(r: Request, talk: seq<Turn>) {
    Connected(talk) || Inquired(r, talk) || Got(talk, Cwd, 200, 299)
  }

  /** Which command may come next. */
  predicate MayFollow(r: Request, talk: seq<Turn>, verb: Verb) {
    match verb
    case Rein => r.cached.Some? && talk == []
    case User =>
      || Greeted(r, talk) || Got(talk, Rein, 200, 299) || Got(talk, Rein, 502, 502)
      || Got(talk, User, 300, 399) || Got(talk, Pass, 530, 530)
      || (Got(talk, User, 530, 530) && !SaysAlready(talk))
    case Pass => Got(talk, User, 300, 399)
    case Acct => Got(talk, Pass, 300, 399)
    case Type => !Listing(r) && LoggedIn(talk)
    case Pasv => r.passiveMode && Typed(r, talk)
    case Port =>
      if r.passiveMode then (Prior(talk) == Some(Pasv) && Code(talk).Some?) || Inquired(r, talk)
      else Typed(r, talk)
    case Syst => Listing(r) && (r.cached.None? || r.cached.value.Unsure?) && Connected(talk)
    case Pwd => Prior(talk) == Some(Syst) && Code(talk).Some?
    case Rest => Prepared(r, talk)
    case Cwd =>
      || Got(talk, Cwd, 200, 299)
      || (Prior(talk).Some? && Transfers(Prior(talk).value) && Got(talk, Prior(talk).value, 500, 599))
    case _ => if r.restart.None? then Prepared(r, talk) else Got(talk, Rest, 350, 350)
  }

  /** What a command may carry: names and passwords come from the caller or from the user, never
      empty; the type is the one asked for; the verb of a transfer follows the request. */
  ghost predicate MayCarry(r: Request, given: Given, c: Command) {
    match c.verb
    case User => c.arg != "" && (c.arg == given.uid || exists a | a in given.script :: c.arg == a.text)
    case Pass => c.arg != "" && (c.arg == given.passwd || exists a | a in given.script :: c.arg == a.secret)
    case Acct => exists a | a in given.script :: c.arg == a.text
    case Type =>
      if r.mode.AsciiMode? || (r.mode.DefaultMode? && (r.urlType == 'a' || r.urlType == 'A')) then c.arg == "A"
      else c.arg == "I"
    case Rest => r.restart == Some(c.arg)
    case Stor => r.verb.Put?
    case Retr => !r.verb.Put? && !Listing(r)
    case List => !r.verb.Put? && Listing(r)
    case Nlst => !r.verb.Put? && Listing(r)
    case Cwd => true
    case _ => c.arg == ""
  }

  /** Every command of the conversation may follow what went before it and carry what it does. */
  ghost predicate Proper(r: Request, given: Given, talk: seq<Turn>) {
    forall k | 0 <= k < |talk| && talk[k].Said? ::
      MayFollow(r, talk[..k], talk[k].command.verb) && MayCarry(r, given, talk[k].command)
  }

  lemma Speak(r: Request, given: Given, talk: seq<Turn>, c: Command)
    requires Proper(r, given, talk) && MayFollow(r, talk, c.verb) && MayCarry(r, given, c)
    ensures var more := talk + [Said(c)];
            && Proper(r, given, more) && Commands(more) == Commands(talk) + [c]
            && Prior(more) == Some(c.verb) && Earlier(more) == Prior(talk) && Code(more).None?
  {
    hide MayFollow, MayCarry;
    var more := talk + [Said(c)];
    assert more[..|talk|] == talk;
    assert forall k | 0 <= k < |talk| :: more[..k] == talk[..k];
  }

  lemma Listen(r: Request, given: Given, talk: seq<Turn>, turn: Turn)
    requires Proper(r, given, talk) && !turn.Said?
    ensures var more := talk + [turn];
            && Proper(r, given, more) && Commands(more) == Commands(talk)
            && Prior(more) == Prior(talk) && Earlier(more) == Earlier(talk)
            && Code(more) == (if turn.Heard? then Some(turn.code) else None)
            && SaysAlready(more) == (turn.Heard? && turn.already)
  {
    hide MayFollow, MayCarry;
    var more := talk + [turn];
    assert more[..|talk|] == talk;
    assert forall k | 0 <= k < |talk| :: more[..k] == talk[..k];
  }

  lemma {:induction false} CarriedCommands(r: Request, given: Given, talk: seq<Turn>)
    requires Proper(r, given, talk)
    ensures forall c | c in Commands(talk) :: MayCarry(r, given, c) && (c.verb.Type? ==> !Listing(r))
  {
    if talk != [] {
      var most := talk[..|talk| - 1];
      hide MayCarry;
      assert forall k | 0 <= k < |most| :: most[k] == talk[k] && most[..k] == talk[..k];
      CarriedCommands(r, given, most);
      var last := talk[|talk| - 1];
      if last.Said? {
        assert MayFollow(r, talk[..|talk| - 1], last.command.verb);
      }
    }
  }

  /** What goes over the wire in a proper conversation. */
  lemma CarriedByWire(r: Request, given: Given, talk: seq<Turn>)
    requires Proper(r, given, talk)
    ensures var wire := Commands(talk);
            && (forall c | c in wire && c.verb.User? ::
                  c.arg == given.uid || exists a | a in given.script :: c.arg == a.text)
            && (forall c | c in wire && c.verb.Pass? ::
                  c.arg == given.passwd || exists a | a in given.script :: c.arg == a.secret)
            && (forall c | c in wire && c.verb.Acct? :: exists a | a in given.script :: c.arg == a.text)
            && (forall c | c in wire && c.verb.Type? ::
                  && !Listing(r)
                  && (r.mode.BinaryMode? ==> c.arg == "I")
                  && (r.mode.AsciiMode? ==> c.arg == "A")
                  && (r.mode.DefaultMode? ==> c.arg == if r.urlType == 'a' || r.urlType == 'A' then "A" else "I"))
  {
    hide Proper, Commands;
    CarriedCommands(r, given, talk);
  }

  // ----- how a session may end

  /** The reply to verb has another code. */
  predicate Refused(talk: seq<Turn>, verb: Verb, low: nat, high: nat) {
    Prior(talk) == Some(verb) && Code(talk).Some? && !(low <= Code(talk).value <= high)
  }

  predicate Confirms(code: nat) { code == 125 || code == 150 || code == 225 }

  /** A transfer command was answered with one of the codes that open the data connection. */
  ghost predicate Confirmed(talk: seq<Turn>) {
    exists k | 0 <= k < |talk| - 1 ::
      talk[k].Said? && Transfers(talk[k].command.verb) && talk[k + 1].Heard? && Confirms(talk[k + 1].code)
  }

  lemma StillConfirmed(talk: seq<Turn>, turn: Turn)
    requires Confirmed(talk)
    ensures Confirmed(talk + [turn])
  {
    var k :| 0 <= k < |talk| - 1 && talk[k].Said? && Transfers(talk[k].command.verb)
             && talk[k + 1].Heard? && Confirms(talk[k + 1].code);
    assert (talk + [turn])[k] == talk[k] && (talk + [turn])[k + 1] == talk[k + 1];
  }

  /** A failure has one of these reasons. */
  ghost predicate MayFail(r: Request, talk: seq<Turn>) {
    || talk == []                                   // nothing was said
    || talk[|talk| - 1].Lost?                       // a reply could not be read
    || (Prior(talk).None? && Code(talk).Some? && !(200 <= Code(talk).value <= 299))
    || MayFollow(r, talk, User)                     // the user gave no name or no password
    || (Refused(talk, User, 200, 399) && Code(talk).value != 530)
    || (Refused(talk, Pass, 200, 299) && Code(talk).value != 530)    // 3xx: the user named no account
    || Refused(talk, Acct, 200, 299)
    || Refused(talk, Type, 200, 299)
    || MayFollow(r, talk, Port)                     // no address to connect to, or none to listen at
    || Refused(talk, Port, 200, 299)
    || Refused(talk, Rest, 350, 350)
    || TransferRefused(talk)
    || Refused(talk, Cwd, 200, 299)
    || (Got(talk, Cwd, 200, 299) && r.file == "")   // the walk down an empty path
    || Confirmed(talk)                              // the data connection failed later
  }

  /** Where the replies to the login commands lead. */
  lemma LoginReplies(r: Request, talk: seq<Turn>)
    requires Code(talk).Some?
    ensures var c := Code(talk).value;
            match Prior(talk)
            case None => r.cached.None? ==> if c / 100 == 2 then MayFollow(r, talk, User) else MayFail(r, talk)
            case Some(v) =>
              && (v.Rein? ==> if c / 100 == 2 || c == 502 then MayFollow(r, talk, User) else LoggedIn(talk))
              && (v.User? ==>
                    if c / 100 == 2 then LoggedIn(talk)
                    else if c / 100 == 3 then MayFollow(r, talk, User) && MayFollow(r, talk, Pass)
                    else if c != 530 then MayFail(r, talk)
                    else
                      && (SaysAlready(talk) || Earlier(talk) == Some(Rein) ==> LoggedIn(talk))
                      && (!SaysAlready(talk) ==> MayFollow(r, talk, User)))
              && (v.Pass? ==>
                    if c / 100 == 2 then LoggedIn(talk)
                    else if c == 530 then MayFollow(r, talk, User)
                    else MayFail(r, talk) && (c / 100 == 3 ==> MayFollow(r, talk, Acct)))
              && (v.Acct? ==> if c / 100 == 2 then LoggedIn(talk) else MayFail(r, talk))
  {
    hide Prior, Earlier, Code, SaysAlready, Confirmed, TransferRefused;
  }

  /** Where the replies to the commands that set up the data connection lead. */
  lemma SetupReplies(r: Request, talk: seq<Turn>)
    requires Code(talk).Some?
    ensures var c := Code(talk).value;
            && (Prior(talk) == Some(Type) && !Listing(r) ==> if c / 100 == 2 then Typed(r, talk) else MayFail(r, talk))
            && (Prior(talk) == Some(Pasv) && r.passiveMode ==> MayFollow(r, talk, Port) && MayFail(r, talk))
            && (Prior(talk) == Some(Pasv) && c == 227 ==> Connected(talk))
            && (Prior(talk) == Some(Port) ==> if c / 100 == 2 then Connected(talk) else MayFail(r, talk))
  {
    hide Prior, Earlier, Code, SaysAlready, Confirmed, TransferRefused;
  }

  lemma TypedLeads(r: Request, talk: seq<Turn>)
    requires Typed(r, talk)
    ensures r.passiveMode ==> MayFollow(r, talk, Pasv)
    ensures !r.passiveMode ==> MayFollow(r, talk, Port) && MayFail(r, talk)
  {}

  lemma MayGiveUp(r: Request, talk: seq<Turn>)
    requires MayFollow(r, talk, User) || MayFollow(r, talk, Port) || talk == [] || Confirmed(talk)
    ensures MayFail(r, talk)
  {}

  lemma LossFails(r: Request, talk: seq<Turn>)
    requires talk != [] && talk[|talk| - 1].Lost?
    ensures MayFail(r, talk)
  {}

  /** Where the replies to REST, to a transfer command and to CWD lead. */
  lemma TransferReplies(r: Request, talk: seq<Turn>)
    requires Code(talk).Some?
    ensures var c := Code(talk).value;
            match Prior(talk)
            case None => true
            case Some(v) =>
              && (v.Rest? ==> if c == 350 then Got(talk, Rest, 350, 350) else MayFail(r, talk))
              && (Transfers(v) ==>
                    && (c / 100 == 5 ==> MayFollow(r, talk, Cwd))
                    && (c / 100 != 5 || |PathCommands(Commands(talk))| > 1 ==> Confirms(c) || MayFail(r, talk)))
              && (v.Cwd? ==>
                    if c / 100 == 2 then
                      Got(talk, Cwd, 200, 299) && MayFollow(r, talk, Cwd) && (r.file == "" ==> MayFail(r, talk))
                    else MayFail(r, talk))
  {
    hide Prior, Earlier, Code, SaysAlready, Commands, PathCommands, Confirmed;
  }

  lemma ConfirmedNow(talk: seq<Turn>, verb: Verb, turn: Turn)
    requires Awaits(talk, verb) && Transfers(verb)
    requires turn.Heard? && Confirms(turn.code)
    ensures Confirmed(talk + [turn])
  {
    var k := |talk| - 1;
    assert (talk + [turn])[k] == talk[k] && (talk + [turn])[k + 1] == turn;
  }

  /** A transfer command was refused, for good or after the walk. */
  predicate TransferRefused(talk: seq<Turn>) {
    && Prior(talk).Some? && Transfers(Prior(talk).value) && Code(talk).Some?
    && !Confirms(Code(talk).value)
    && (500 <= Code(talk).value <= 599 ==> |PathCommands(Commands(talk))| > 1)
  }

  // ----- what the server says it is

  predicate Guess(server: Server) { server.Unsure? || server.TcpcUnsure? }

  predicate Contains(s: string, t: string) {
    t <= s || (s != "" && Contains(s[1..], t))
  }

  lemma {:induction false} ContainsMeans(s: string, t: string)
    ensures Contains(s, t) <==> exists a, b :: s == a + t + b
  {
    if t <= s {
      assert s == "" + t + s[|t|..];
    } else if s == "" {
      assert forall a, b :: "" == a + t + b ==> |t| == 0;
    } else {
      ContainsMeans(s[1..], t);
      if Contains(s[1..], t) {
        var a, b :| s[1..] == a + t + b;
        assert s == ([s[0]] + a) + t + b;
      }
      forall a, b | s == a + t + b
        ensures Contains(s[1..], t)
      {
        assert a == "" ==> t <= s;
        assert s[1..] == a[1..] + t + b;
      }
    }
  }

  /** What a reply to SYST says about the server. */
  function SystemServer(before: Server, reply: string): Server {
    if reply == "UNIX Type: L8MAC-OSMachTen" then Machten
    else if Contains(reply, "UNIX") then Unix
    else if "VMS" <= reply then Vms
    else if "VM" <= reply then Cms
    else if "DCTS" <= reply then Dcts
    else if Contains(reply, "MAC-OS TCP/ConnectII") then TcpcUnsure
    else if "MACOS Peter's Server" <= reply then PeterLewis
    else if "Windows_NT" <= reply then WinNt
    else before
  }

  /** What a reply to PWD says about the server. */
  function DirectoryServer(before: Server, reply: string): (server: Server)
    ensures !Guess(server)
  {
    var i := IndexOf(reply, '"');
    if i == |reply| then Generic
    else
      var rest := reply[i + 1..];
      var j := IndexOf(rest, '"');
      if j == |rest| then Generic
      else if before.TcpcUnsure? || before.Tcpc? then (if rest[0] == '/' then Ncsa else Tcpc)
      else if rest[0] == '/' then Unix
      else if j > 0 && rest[j - 1] == ']' then Vms
      else Generic
  }

  /** The tests in their order, with containment spelled out. */
  lemma SystemServerCases(before: Server, reply: string)
    ensures SystemServer(before, reply) ==
              if reply == "UNIX Type: L8MAC-OSMachTen" then Machten
              else if exists a, b :: reply == a + "UNIX" + b then Unix
              else if exists b :: reply == "VMS" + b then Vms
              else if exists b :: reply == "VM" + b then Cms
              else if exists b :: reply == "DCTS" + b then Dcts
              else if exists a, b :: reply == a + "MAC-OS TCP/ConnectII" + b then TcpcUnsure
              else if exists b :: reply == "MACOS Peter's Server" + b then PeterLewis
              else if exists b :: reply == "Windows_NT" + b then WinNt
              else before
  {
    hide Contains;
    ContainsMeans(reply, "UNIX");
    ContainsMeans(reply, "MAC-OS TCP/ConnectII");
    StartsMeans(reply, "VMS");
    StartsMeans(reply, "VM");
    StartsMeans(reply, "DCTS");
    StartsMeans(reply, "MACOS Peter's Server");
    StartsMeans(reply, "Windows_NT");
  }

  lemma StartsMeans(s: string, t: string)
    ensures t <= s <==> exists b :: s == t + b
  {
    if t <= s {
      assert s == t + s[|t|..];
    }
  }

  /** What the reply to SYST leaves: only a text under code 215 says anything. */
  function GuessOf(turn: Turn): Server {
    if turn.Heard? && turn.code == 215 && turn.text != "" then SystemServer(Unsure, turn.text) else Unsure
  }

  const SYST := Said(Command(Syst, ""))
  const PWD := Said(Command(Pwd, ""))

  /** The inquiry ends with SYST and its reply if that settles the matter, else with PWD and its
      reply; without an answer the server is a generic one. */
  predicate Settled(talk: seq<Turn>, server: Server) {
    var n := |talk|;
    || (n >= 2 && talk[n - 2] == SYST
        && if talk[n - 1].Lost? then server == Generic
           else talk[n - 1].Heard? && !Guess(server) && server == GuessOf(talk[n - 1]))
    || (n >= 4 && talk[n - 4] == SYST && talk[n - 3].Heard? && Guess(GuessOf(talk[n - 3])) && talk[n - 2] == PWD
        && if talk[n - 1].Heard? && 200 <= talk[n - 1].code <= 299 then
             server == DirectoryServer(GuessOf(talk[n - 3]), talk[n - 1].text)
           else !talk[n - 1].Said? && server == Generic)
  }

  /** After SYST, answered or not, and after PWD the inquiry may go on or end. */
  lemma InquiryLeads(r: Request, talk: seq<Turn>)
    requires Listing(r) && talk != [] && !talk[|talk| - 1].Said?
    ensures |talk| >= 2 && talk[|talk| - 2] == SYST ==>
              && Inquired(r, talk)
              && (talk[|talk| - 1].Heard? ==> MayFollow(r, talk, Pwd))
              && (talk[|talk| - 1].Lost? ==> Settled(talk, Generic))
    ensures |talk| >= 2 && talk[|talk| - 2] == PWD ==> Inquired(r, talk)
    ensures Inquired(r, talk) && r.passiveMode ==> MayFollow(r, talk, Port)
  {
    hide SystemServer, DirectoryServer;
    var most := talk[..|talk| - 1];
    assert most != [] ==> Prior(talk) == Prior(most) && most[|most| - 1] == talk[|talk| - 2];
  }

  /** The directory is what stands between the first two quotation marks. */
  lemma DirectoryServerCases(before: Server, start: string, directory: string, rest: string)
    requires '"' !in start && '"' !in directory
    ensures DirectoryServer(before, start) == DirectoryServer(before, start + "\"" + directory) == Generic
    ensures DirectoryServer(before, start + "\"" + directory + "\"" + rest) ==
              if before.TcpcUnsure? || before.Tcpc? then (if "/" <= directory then Ncsa else Tcpc)
              else if "/" <= directory then Unix
              else if directory != "" && directory[|directory| - 1] == ']' then Vms
              else Generic
  {
    hide IndexOf;
    FirstIndex(start, "\"" + directory, '"');
    FirstIndex(directory, "", '"');
    FirstIndex(start, "\"" + directory + "\"" + rest, '"');
    FirstIndex(directory, "\"" + rest, '"');
    assert start + "\"" + directory + "\"" + rest == start + ("\"" + directory + "\"" + rest);
    assert start + "\"" + directory == start + ("\"" + directory);
    assert ("\"" + directory + "\"" + rest)[1..] == directory + ("\"" + rest);
  }
}
