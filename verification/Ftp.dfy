/** The FTP client: an event machine that drives four nested machines sharing one sub-state. */
module Ftp {
  import opened Common
  import opened FtpSpec
  import opened FtpTalk

  datatype State = Begin | NeedCcon | NeedLogin | NeedDcon | NeedData | NeedServer | Success | Failure

  /** What wakes the machine up: the control or the data socket, a timeout, or a close. */
  datatype Event = Ready(dataSocket: bool) | Close(dataSocket: bool) | Timeout(dataSocket: bool, receiving: bool)

  /** A nested machine is started: which one, and the sub-state it finds. */
  datatype Start = Start(machine: State, substate: int, sent: bool)

  ghost function Started(starts: seq<Start>, machine: State): nat {
    if starts == [] then 0
    else Started(starts[..|starts| - 1], machine) + if starts[|starts| - 1].machine == machine then 1 else 0
  }

  predicate Settles(status: Status) { status.WouldBlock? || status.Ok? || status.Error? }

  const SUB_ERROR := -2
  const SUB_SUCCESS := -1

  const LOGIN_SELECT := 0
  const LOGIN_GREETING := 1
  const LOGIN_REIN := 2
  const LOGIN_UID := 3
  const LOGIN_UID_NO_REIN := 4
  const LOGIN_PASSWD := 5
  const LOGIN_ACCOUNT := 6
  const LOGIN_PROMPT := 7

  const DCON_TYPE := 0
  const DCON_SELECT := 1
  const DCON_PASV := 2
  const DCON_PORT := 3

  const SERVER_SYST := 0
  const SERVER_CHECK_SYST := 1
  const SERVER_PWD := 2
  const SERVER_CHECK_PWD := 3

  const DATA_SELECT := 0
  const DATA_CONNECT := 1
  const DATA_ACCEPT := 2
  const DATA_REST := 3
  const DATA_ACTION := 4
  const DATA_CWD := 5
  const DATA_SEGMENT := 6
  const DATA_STREAM := 7
  const DATA_BODY := 8

  /** LIST or NLST. */
  function ListType(server: Server): DataType {
    if server.Machten? || server.Unix? || server.Vms? || server.PeterLewis? || server.WinNt? then LongList else NameList
  }

  function StartType(mode: TransferMode, urlType: char): DataType {
    match mode
    case DefaultMode =>
      if urlType in "aA" then Ascii else if urlType in "dD" then NameList else Image
    case AsciiMode => Ascii
    case BinaryMode => Image
    case DirMode => NameList
  }

  function TypeLetter(t: DataType): string {
    match t
    case Ascii => "A"
    case Image => "I"
    case LongList => "L"
    case NameList => "N"
  }

  predicate IsDir(t: DataType) { t.LongList? || t.NameList? }

  // ----- what the sub-states come to

  function StateRank(state: State): nat {
    match state
    case Begin => 6
    case NeedCcon => 5
    case NeedLogin => 4
    case NeedDcon => 3
    case NeedServer => 2
    case NeedData => 1
    case _ => 0
  }

  lemma Regroup(path: seq<Command>, c: Command, rest: seq<Command>)
    ensures path + ([c] + rest) == path + [c] + rest
  {}

  function DataRank(substate: int): nat {
    if substate < 0 then 0
    else if substate == DATA_SELECT then 8
    else if substate == DATA_CONNECT || substate == DATA_ACCEPT then 7
    else if substate == DATA_SEGMENT then 6
    else if substate == DATA_REST then 5
    else if substate == DATA_ACTION then 4
    else if substate == DATA_CWD then 3
    else if substate == DATA_STREAM then 2
    else 1
  }

  function LoginVerb(substate: int): Verb {
    if substate == LOGIN_REIN then Rein
    else if substate == LOGIN_UID || substate == LOGIN_UID_NO_REIN then User
    else if substate == LOGIN_PASSWD then Pass
    else Acct
  }

  function SetupVerb(substate: int): Verb {
    if substate == DCON_TYPE then Type else if substate == DCON_PASV then Pasv else Port
  }

  function LoginRank(substate: int): nat {
    if substate < 0 then 0 else if substate == LOGIN_SELECT then 2 else 1
  }

  class Session {
    const request: Request
    var script: seq<Answer>         // what the outside world is going to answer
    var wire: seq<Command>          // the commands sent
    var outcome: Option<Status>     // how the request was cleaned up

    var state: State
    var substate: int
    var sent: bool
    var cwd: bool
    var reset: bool
    var server: Server
    var alreadyLoggedIn: bool
    var uid: string
    var passwd: string
    var account: string
    var repcode: nat
    var reply: string

    var offset: nat                 // into request.file
    var pasv: bool
    var dataType: DataType
    var complete: bv2

    ghost var starts: seq<Start>    // the nested machines started
    ghost var setups: nat           // how often the data connection machine was
    ghost var dataDone: bool        // the data connection was read to its end
    ghost var putDone: bool         // the document was written completely
    ghost var overrun: bool         // the path was read beyond its terminator
    ghost var saidAlready: bool     // the last reply said that the user is already logged in

    ghost const given: Given        // name, password and script as they were
    ghost var talk: seq<Turn>       // the conversation on the control connection
    ghost var inquiry: seq<Turn>    // the conversation when the server type was settled

    constructor (request: Request, uid: string, passwd: string, script: seq<Answer>)
      ensures this.request == request && this.script == script && wire == [] && outcome == None
      ensures given == Given(uid, passwd, script)
      ensures Valid() && Faithful() && state.Begin?
    {
      this.request, this.uid, this.passwd, this.script := request, uid, passwd, script;
      wire, outcome := [], None;
      state, substate, sent, cwd, reset, server, alreadyLoggedIn := Begin, 0, false, false, false, Unsure, false;
      account, repcode, reply := "", 0, "";
      offset, pasv, dataType, complete := 0, false, Image, 0;
      starts, setups, dataDone, putDone, overrun, saidAlready := [], 0, false, false, false, false;
      given, talk, inquiry := Given(uid, passwd, script), [], [];
    }

    // ----- what holds

    /** A text the user or the server came up with. */
    ghost predicate IsAnswered(text: string) {
      exists a | a in given.script :: text == a.text
    }

    /** The conversation is proper, and what is kept of it is right. */
    ghost predicate Faithful()
      reads this`talk, this`wire, this`inquiry, this`script, this`uid, this`passwd
    {
      && Proper(request, given, talk) && Commands(talk) == wire && inquiry <= talk
      && (forall a | a in script :: a in given.script)
      && (uid == "" || uid == given.uid || IsAnswered(uid))
      && (passwd == "" || passwd == given.passwd || exists a | a in given.script :: passwd == a.secret)
    }

    /** The representation type is the one the request asks for, or a directory's. */
    ghost predicate Typing()
      reads this`dataType
    {
      && (IsDir(dataType) <==> Listing(request))
      && (dataType.Ascii? <==>
            || request.mode.AsciiMode?
            || (request.mode.DefaultMode? && (request.urlType == 'a' || request.urlType == 'A')))
    }

    /** A directory is listed in the form the server is known to understand. */
    ghost predicate Lists()
      reads this`dataType, this`server
    {
      && Typing()
      && (IsDir(dataType) ==>
            (dataType.LongList? <==>
               server.Machten? || server.Unix? || server.Vms? || server.PeterLewis? || server.WinNt?))
    }

    /** Until the server type is asked for only a known server is asked for the long form. */
    ghost predicate MayList()
      reads this`dataType, this`server
    {
      Typing() && (dataType.LongList? ==> Lists())
    }

    /** The server type was cached or never asked for, or follows from the replies to SYST and PWD. */
    ghost predicate ServerSettled()
      reads this`server, this`inquiry
    {
      if inquiry != [] then Settled(inquiry, server)
      else server == if request.cached.Some? then request.cached.value else Unsure
    }

    function Transfer(): Verb
      reads this`dataType
    {
      if request.verb.Put? then Stor
      else match dataType
        case LongList => List
        case NameList => Nlst
        case _ => Retr
    }

    function Root(): string
      reads this`server, this`uid
    {
      if server.Vms? then "[" + uid + "]" else "/"
    }

    /** Asking for the whole path. */
    ghost function Whole(): seq<Command>
      reads this`dataType
    {
      [Command(Transfer(), request.file)]
    }

    ghost function ThePlan(): seq<Command>
      reads this`dataType, this`server, this`uid
    {
      Plan(Transfer(), Root(), request.file)
    }

    /** Nothing about the file has been said yet. */
    ghost predicate Untouched()
      reads this`wire, this`offset, this`cwd, this`complete, this`overrun, this`putDone
    {
      offset == 0 && !cwd && complete == 0 && !putDone && PathCommands(wire) == [] && !overrun
    }

    /** The data connection has been agreed on: passive ones only once and not by PORT. */
    ghost predicate Agreed()
      reads this`wire, this`setups, this`pasv, this`dataType
    {
      && 1 <= setups <= 2
      && Count(wire, Type) <= 1 && Count(wire, Pasv) <= 1 && Count(wire, Port) <= 1
      && (pasv ==> setups == 1 && Count(wire, Port) == 0)
      && (!IsDir(dataType) ==> Count(wire, Type) == 1)
    }

    /** The server is asked at most once what it is. */
    ghost predicate Asked()
      reads this`wire, this`server
    {
      && Count(wire, Syst) <= 1 && Count(wire, Pwd) <= Count(wire, Syst)
      && (Count(wire, Syst) == 1 ==> !Guess(server))
    }

    /** Nothing but the login has been talked about. */
    ghost predicate OnlyLogin()
      reads this`wire, this`offset, this`cwd, this`complete, this`overrun, this`putDone, this`setups, this`pasv
    {
      && Untouched() && setups == 0 && !pasv
      && Count(wire, Type) == Count(wire, Pasv) == Count(wire, Port) == Count(wire, Syst) == Count(wire, Pwd) == 0
    }

    /** What the conversation has come to in a sub-state of the login machine. */
    ghost predicate LoginDue()
      reads this`talk, this`substate, this`sent, this`reset
    {
      if sent then
        && Awaits(talk, LoginVerb(substate))
        && (substate == LOGIN_UID_NO_REIN ==> Earlier(talk) == Some(Rein))
      else if substate == SUB_SUCCESS then LoggedIn(talk)
      else if substate == SUB_ERROR then MayFail(request, talk)
      else if substate == LOGIN_SELECT then talk == [] && reset == request.cached.Some?
      else if substate == LOGIN_GREETING then talk == [] && request.cached.None?
      else if substate == LOGIN_PROMPT then MayFollow(request, talk, User)
      else
        && MayFollow(request, talk, LoginVerb(substate))
        && (substate == LOGIN_UID_NO_REIN ==> Prior(talk) == Some(Rein))
    }

    /** What is to be sent is there. */
    ghost predicate LoginWords()
      reads this`substate, this`uid, this`passwd, this`account
    {
      && (substate == LOGIN_UID || substate == LOGIN_UID_NO_REIN ==> uid != "")
      && (substate == LOGIN_PASSWD ==> passwd != "")
      && (substate == LOGIN_ACCOUNT ==> IsAnswered(account))
    }

    ghost predicate LoginState()
      reads this`wire, this`offset, this`cwd, this`complete, this`overrun, this`putDone, this`setups, this`pasv,
            this`substate, this`sent, this`talk, this`reset, this`uid, this`passwd, this`account
    {
      && OnlyLogin()
      && SUB_ERROR <= substate <= LOGIN_PROMPT
      && (sent ==> LOGIN_REIN <= substate <= LOGIN_ACCOUNT)
      && LoginDue() && LoginWords()
    }

    /** The server has accepted the way the data connection is to be made. */
    ghost predicate Accepted()
      reads this`pasv, this`repcode
    {
      if pasv then repcode == 227 else repcode / 100 == 2
    }

    /** What the conversation has come to in a sub-state of the data connection machine. */
    ghost predicate SetupDue()
      reads this`talk, this`substate, this`sent, this`pasv
    {
      if substate == SUB_ERROR then MayFail(request, talk)
      else if sent then Awaits(talk, SetupVerb(substate)) && (substate == DCON_PASV ==> request.passiveMode)
      else if substate == SUB_SUCCESS then
        Connected(talk) && (pasv ==> request.passiveMode && MayFollow(request, talk, Port))
      else if substate == DCON_TYPE && !pasv then LoggedIn(talk)
      else if substate == DCON_PASV then MayFollow(request, talk, Pasv)
      else if substate == DCON_SELECT && !pasv then Typed(request, talk)
      else MayFollow(request, talk, Port)
    }

    /** The transfer or another set-up may follow. */
    ghost predicate Linked()
      reads this`talk, this`pasv
    {
      && (Connected(talk) || Inquired(request, talk))
      && (pasv ==> request.passiveMode && MayFollow(request, talk, Port))
    }

    ghost predicate SetupState()
      reads this`wire, this`offset, this`cwd, this`complete, this`overrun, this`putDone, this`setups, this`pasv,
            this`substate, this`sent, this`server, this`dataType, this`repcode, this`talk
    {
      && Untouched() && Asked() && 1 <= setups <= 2
      && Count(wire, Type) <= 1 && Count(wire, Pasv) <= 1 && Count(wire, Port) <= 1
      && SUB_ERROR <= substate <= DCON_PORT
      && (0 <= substate ==> pasv == (setups == 2))
      && (0 <= substate < DCON_PORT || (substate == DCON_PORT && !sent) ==> Count(wire, Port) == 0)
      && (0 <= substate < DCON_PASV || (substate == DCON_PASV && !sent) ==> pasv || Count(wire, Pasv) == 0)
      && (substate == DCON_TYPE && !sent ==> pasv || Count(wire, Type) == 0)
      && (substate == DCON_SELECT || (substate == DCON_TYPE && (pasv || IsDir(dataType))) ==> !sent)
      && (substate == DCON_PASV ==> !pasv)
      && ((pasv || 0 < substate || sent) && !IsDir(dataType) ==> Count(wire, Type) == 1)
      && (substate == SUB_SUCCESS ==> !sent && Agreed() && Accepted())
      && SetupDue()
    }

    /** What the conversation has come to in a sub-state of the server type machine. */
    ghost predicate InfoDue()
      reads this`talk, this`substate, this`sent, this`pasv, this`server, this`inquiry, this`reply
    {
      var n := |talk|;
      if substate == SERVER_SYST && !sent then
        Linked() && ServerSettled() && (server.Unsure? ==> MayFollow(request, talk, Syst))
      else if substate == SERVER_SYST then server.Unsure? && n >= 1 && talk[n - 1] == SYST
      else if substate == SERVER_CHECK_SYST then
        server.Unsure? && n >= 2 && talk[n - 2] == SYST && talk[n - 1].Heard? && talk[n - 1].code == 215
        && talk[n - 1].text == reply
      else if substate == SERVER_PWD && !sent then
        n >= 2 && talk[n - 2] == SYST && talk[n - 1].Heard? && Guess(server) && server == GuessOf(talk[n - 1])
      else if substate == SERVER_PWD then
        n >= 3 && talk[n - 3] == SYST && talk[n - 2].Heard? && Guess(server) && server == GuessOf(talk[n - 2])
        && talk[n - 1] == PWD
      else if substate == SERVER_CHECK_PWD then
        n >= 4 && talk[n - 4] == SYST && talk[n - 3].Heard? && Guess(server) && server == GuessOf(talk[n - 3])
        && talk[n - 2] == PWD && talk[n - 1].Heard? && 200 <= talk[n - 1].code <= 299 && talk[n - 1].text == reply
      else Settled(talk, if substate == SUB_ERROR then Generic else server) && Inquired(request, talk)
    }

    ghost predicate InfoState()
      reads this`wire, this`offset, this`cwd, this`complete, this`overrun, this`putDone, this`setups, this`pasv,
            this`substate, this`sent, this`server, this`dataType, this`talk, this`inquiry, this`reply
    {
      && Listing(request) && dataType.NameList? && (pasv ==> request.passiveMode) && InfoDue()
      && Untouched() && Agreed()
      && Count(wire, Syst) <= 1 && Count(wire, Pwd) <= Count(wire, Syst)
      && SUB_ERROR <= substate <= SERVER_CHECK_PWD
      && (substate == SERVER_SYST && !sent ==> Asked())
      && ((substate == SERVER_SYST && sent) || substate == SERVER_CHECK_SYST || (substate == SERVER_PWD && !sent) ==>
            Count(wire, Syst) == 1 && Count(wire, Pwd) == 0)
      && (substate == SERVER_PWD || substate == SERVER_CHECK_PWD ==> Count(wire, Syst) == 1)
      && (substate < 0 || substate == SERVER_CHECK_SYST || substate == SERVER_CHECK_PWD ==> !sent)
      && (substate == SUB_SUCCESS ==> !Guess(server))
    }

    /** What is still to be sent from NEED_SEGMENT on. */
    ghost function Ahead(): seq<Command>
      reads this`dataType, this`offset
    {
      if offset > |request.file| then [] else Walk(Transfer(), request.file, offset)
    }

    /** The transfer command itself is due, or has just been sent. */
    ghost predicate ActionDue(isSent: bool)
      reads this`wire, this`cwd, this`offset, this`dataType, this`server, this`uid
    {
      && offset <= |request.file| && cwd == (offset > 0)
      && PathCommands(wire) + (if isSent then [] else [Command(Transfer(), request.file[offset..])])
      == if cwd then ThePlan() else Whole()
    }

    /** The walk is to be started or continued. */
    ghost predicate SegmentDue()
      reads this`wire, this`cwd, this`offset, this`dataType, this`server, this`uid
    {
      && cwd == (offset > 0) && (offset > |request.file| ==> request.file == "")
      && if cwd then PathCommands(wire) + Ahead() == ThePlan() else PathCommands(wire) == Whole()
    }

    /** A change to the directory segment is due. */
    ghost predicate DirectoryDue(segment: Option<string>)
      reads this`wire, this`offset, this`dataType, this`server, this`uid
    {
      && offset > 0 && (offset > |request.file| ==> request.file == "")
      && segment.Some?
      && PathCommands(wire) + [Command(Cwd, segment.value)] + Ahead() == ThePlan()
    }

    /** Everything has been asked for; an empty path only at once, not by walking. */
    ghost predicate AllSent()
      reads this`wire, this`dataType, this`server, this`uid
    {
      PathCommands(wire) == Whole() || (request.file != "" && PathCommands(wire) == ThePlan())
    }

    /** An empty path was refused and the change to the root was accepted: the walk goes on
        beyond the end of the path. */
    ghost predicate WalksOn()
      reads this`wire, this`repcode
    {
      request.file == "" && |PathCommands(wire)| == 2 && repcode / 100 == 2
    }

    /** The path commands sent so far, seen from the sub-state; segment is the next directory. */
    ghost predicate OnPlan(segment: Option<string>)
      reads this`wire, this`offset, this`cwd, this`complete, this`overrun, this`putDone, this`substate,
            this`sent, this`dataType, this`server, this`uid
    {
      if substate == DATA_SELECT || substate == DATA_CONNECT then !sent && Untouched()
      else if substate == DATA_REST then ActionDue(false)
      else if substate == DATA_ACTION then ActionDue(sent)
      else if substate == DATA_SEGMENT then !sent && SegmentDue()
      else if substate == DATA_CWD then if sent then cwd && SegmentDue() else DirectoryDue(segment)
      else if substate == SUB_ERROR then !sent && PathCommands(wire) <= ThePlan()
      else !sent && AllSent()
    }

    /** What the conversation has come to in a sub-state of the transfer machine. */
    ghost predicate DataDue()
      reads this`talk, this`substate, this`sent, this`pasv, this`dataType, this`cwd
    {
      if substate == SUB_ERROR then MayFail(request, talk)
      else if substate == DATA_SELECT || substate == DATA_CONNECT then Linked()
      else if substate == DATA_REST then
        if sent then request.restart.Some? && Awaits(talk, Rest) else Prepared(request, talk)
      else if substate == DATA_ACTION then
        if sent then Awaits(talk, Transfer()) else MayFollow(request, talk, Transfer())
      else if substate == DATA_SEGMENT then MayFollow(request, talk, Cwd) && (cwd ==> Got(talk, Cwd, 200, 299))
      else if substate == DATA_CWD then if sent then Awaits(talk, Cwd) else MayFollow(request, talk, Cwd)
      else Confirmed(talk)
    }

    /** What has been completed. */
    ghost predicate Completion()
      reads this`complete, this`dataDone, this`putDone, this`repcode
    {
      && (complete & 1 != 0 ==> dataDone || putDone)
      && (complete & 2 != 0 ==> repcode / 100 == 2 || putDone)
      && (putDone ==> request.verb.Put?)
    }

    ghost predicate DataState(segment: Option<string>)
      reads this`wire, this`offset, this`cwd, this`complete, this`overrun, this`putDone, this`setups, this`pasv,
            this`substate, this`sent, this`server, this`dataType, this`uid, this`dataDone, this`repcode,
            this`talk
    {
      && Agreed() && Asked() && DataDue()
      && SUB_ERROR <= substate <= DATA_BODY
      && OnPlan(segment)
      && (substate == DATA_CONNECT ==> pasv)
      && (substate != SUB_ERROR ==> !overrun && Completion())
      && (substate == SUB_ERROR ==> (overrun <==> WalksOn()))
      && (substate == DATA_SEGMENT ==> repcode / 100 == if cwd then 2 else 5)
      && (substate == DATA_CWD && request.file == "" ==> repcode / 100 != 2)
      && (substate == SUB_SUCCESS ==> complete == 3)
      && (0 <= substate < DATA_BODY ==> complete == 0)
    }

    /** What no run exceeds, however it ends. */
    ghost predicate Limits()
      reads this`wire, this`setups, this`overrun, this`dataType, this`server, this`uid, this`repcode, this`inquiry
    {
      && (PathCommands(wire) != [] ==> Lists() && ServerSettled())
      && setups <= 2
      && Count(wire, Type) <= 1 && Count(wire, Pasv) <= 1 && Count(wire, Port) <= 1
      && Count(wire, Syst) <= 1 && Count(wire, Pwd) <= 1
      && PathCommands(wire) <= ThePlan()
      && (overrun <==> WalksOn())
    }

    /** Every nested machine was started at sub-state 0 with no command under way. */
    ghost predicate CleanStarts()
      reads this`starts, this`setups
    {
      && (forall s | s in starts :: s.substate == 0 && !s.sent)
      && setups == Started(starts, NeedDcon)
    }

    ghost predicate Valid()
      reads this`state, this`starts, this`wire, this`offset, this`cwd, this`complete, this`overrun,
            this`putDone, this`setups, this`pasv, this`substate, this`sent, this`server, this`dataType,
            this`passwd, this`uid, this`dataDone, this`repcode, this`talk, this`inquiry, this`reply, this`reset,
            this`account
    {
      && CleanStarts()
      && match state
         case Begin => Fresh()
         case NeedCcon => Fresh() && MayList()
         case NeedLogin => LoginState() && MayList() && ServerSettled()
         case NeedDcon => SetupState() && MayList() && ServerSettled()
         case NeedServer => InfoState() && MayList()
         case NeedData => DataState(None) && substate != DATA_SEGMENT && Lists() && ServerSettled()
         case Success => Transferred() && Confirmed(talk)
         case Failure => Limits() && MayFail(request, talk)
    }

    lemma UntouchedLimits()
      requires Untouched() && setups <= 2 && Count(wire, Syst) <= 1 && Count(wire, Pwd) <= 1
      requires Count(wire, Type) <= 1 && Count(wire, Pasv) <= 1 && Count(wire, Port) <= 1
      ensures Limits()
    {
      hide Count, PathCommands, Plan;
    }

    lemma AskedOnce()
      requires Asked()
      ensures Count(wire, Syst) <= 1 && Count(wire, Pwd) <= 1
    {}

    lemma FreshLimits()
      requires Fresh()
      ensures Limits() && OnlyLogin() && MayFail(request, talk)
    {
      hide Plan;
    }

    lemma LoginMayBegin()
      requires OnlyLogin() && substate == 0 && !sent && talk == [] && inquiry == []
      requires if request.cached.Some? then reset && server == request.cached.value else !reset && server.Unsure?
      ensures LoginState() && ServerSettled()
      ensures Typing() && !dataType.LongList? ==> MayList()
    {
      hide Count, PathCommands;
    }

    /** Between the machines the server type machine or the transfer may start. */
    lemma MayProceed()
      requires Untouched() && Agreed() && Asked() && substate == 0 && !sent
      requires Linked() && ServerSettled()
      ensures DataState(None)
      ensures Listing(request) && dataType.NameList? && Connected(talk) ==> InfoState()
    {
      hide Count, PathCommands, Plan;
    }

    lemma DataLimits(segment: Option<string>)
      requires DataState(segment) && substate != DATA_SEGMENT
      requires Lists() && ServerSettled()
      ensures Limits()
    {
      hide Count, PathCommands, Plan, Walk;
      PlanParts();
    }

    lemma ValidKeepsLimits()
      requires Valid()
      ensures Limits() && CleanStarts() && (state.Success? ==> Transferred() && Confirmed(talk))
      ensures state.Failure? ==> MayFail(request, talk)
    {
      hide Limits, DataState, Lists, ServerSettled, Untouched, Count, PathCommands, Plan, Started;
      match state {
        case Begin => FreshLimits();
        case NeedCcon => FreshLimits();
        case NeedData => DataLimits(None);
        case Success =>
        case Failure =>
        case _ => UntouchedLimits();
      }
    }

    ghost predicate Fresh()
      reads this`wire, this`offset, this`cwd, this`complete, this`overrun, this`putDone, this`setups, this`pasv,
            this`substate, this`sent, this`dataDone, this`talk, this`inquiry, this`server, this`reset
    {
      && wire == [] && substate == 0 && !sent && Untouched() && !pasv && setups == 0 && !dataDone && !putDone
      && talk == [] && inquiry == [] && server.Unsure? && !reset
    }

    // ----- talking to the outside

    method Ask() returns (a: Answer)
      requires Faithful()
      modifies this`script
      ensures Faithful() && (a.status.WouldBlock? || a in given.script)
      ensures a == Upcoming(old(script)) && script == if old(script) == [] then [] else old(script)[1..]
      ensures |script| <= |old(script)|
      ensures !a.status.WouldBlock? ==> |script| < |old(script)|
    {
      a := Upcoming(script);
      if script != [] {
        script := script[1..];
      }
    }

    ghost method Hear(turn: Turn)
      requires Faithful() && !turn.Said?
      modifies this`talk
      ensures Faithful() && talk == old(talk) + [turn]
      ensures Prior(talk) == old(Prior(talk)) && Earlier(talk) == old(Earlier(talk))
      ensures Code(talk) == (if turn.Heard? then Some(turn.code) else None)
      ensures SaysAlready(talk) == (turn.Heard? && turn.already)
    {
      hide Prior, Earlier, Code, SaysAlready, Commands, Proper;
      Listen(request, given, talk, turn);
      talk := talk + [turn];
    }

    method ReadControl() returns (status: Status, address: bool)
      requires Faithful()
      modifies this`script, this`repcode, this`reply, this`alreadyLoggedIn, this`saidAlready, this`talk
      ensures Faithful()
      ensures |script| <= |old(script)|
      ensures !status.WouldBlock? ==> |script| < |old(script)|
      ensures status == Upcoming(old(script)).status && address == Upcoming(old(script)).address
      ensures status.Loaded? ==> repcode == Upcoming(old(script)).code && reply == Upcoming(old(script)).text
      ensures if status.Loaded? then alreadyLoggedIn == saidAlready && (saidAlready ==> repcode == 530)
              else unchanged(this`repcode, this`reply, this`alreadyLoggedIn, this`saidAlready)
      ensures talk == old(talk) + if status.WouldBlock? then [] else if status.Loaded? then
                                    [Heard(repcode, reply, saidAlready)] else [Lost]
      ensures Prior(talk) == old(Prior(talk)) && Earlier(talk) == old(Earlier(talk))
      ensures status.Loaded? ==> Code(talk) == Some(repcode) && SaysAlready(talk) == saidAlready
    {
      hide Prior, Earlier, Code, SaysAlready, Faithful;
      var a := Ask();
      status, address := a.status, a.address;
      if status.Loaded? {
        repcode, reply := a.code, a.text;
        alreadyLoggedIn := a.code == 530 && a.already;
        saidAlready := alreadyLoggedIn;
        Hear(Heard(repcode, reply, saidAlready));
      } else if !status.WouldBlock? {
        Hear(Lost);
      }
    }

    method SendCommand(verb: Verb, arg: string)
      requires Faithful() && MayFollow(request, talk, verb) && MayCarry(request, given, Command(verb, arg))
      modifies this`wire, this`talk
      ensures Faithful()
      ensures wire == old(wire) + [Command(verb, arg)]
      ensures talk == old(talk) + [Said(Command(verb, arg))]
      ensures Awaits(talk, verb) && Earlier(talk) == old(Prior(talk))
      ensures forall v :: Count(wire, v) == old(Count(wire, v)) + if v == verb then 1 else 0
      ensures PathCommands(wire) == old(PathCommands(wire))
                                  + if NamesPath(verb) then [Command(verb, arg)] else []
    {
      hide Prior, Earlier, Code, MayFollow, MayCarry, Proper, Commands;
      OneMore(wire, Command(verb, arg));
      Speak(request, given, talk, Command(verb, arg));
      wire := wire + [Command(verb, arg)];
      talk := talk + [Said(Command(verb, arg))];
    }

    // ----- the login machine

    method Login() returns (status: Status)
      requires LoginState() && Faithful()
      modifies this`script, this`repcode, this`reply, this`alreadyLoggedIn, this`saidAlready, this`wire,
               this`talk, this`substate, this`sent, this`uid, this`passwd, this`account
      ensures Faithful() && |script| <= |old(script)|
      ensures Settles(status) && OnlyLogin()
      ensures status.WouldBlock? ==> LoginState()
      ensures !status.WouldBlock? ==> substate == 0 && !sent
      ensures status.Ok? ==> LoggedIn(talk)
      ensures status.Error? ==> MayFail(request, talk)
    {
      hide Count, PathCommands, OnlyLogin, LoginVerb, Faithful, Prior, Earlier, Code, SaysAlready, MayFollow,
           MayFail, LoggedIn;
      while true
        invariant LoginState() && Faithful() && |script| <= |old(script)|
        decreases |script|, LoginRank(substate), !sent
      {
        if substate == LOGIN_SELECT {
          LoginMayStart();
          substate := if reset then LOGIN_REIN else LOGIN_GREETING;
        } else if substate == LOGIN_GREETING {
          var blocked := Greeting();
          if blocked {
            return WouldBlock;
          }
        } else if substate == LOGIN_PROMPT {
          Prompt();
        } else if substate == SUB_ERROR {
          substate := 0;
          return Error;
        } else if substate == SUB_SUCCESS {
          substate := 0;
          return Ok;
        } else if !sent {
          LoginCommand();
        } else {
          var answer := LoginReply();
          if answer.WouldBlock? {
            return WouldBlock;
          }
        }
      }
    }

    /** A connection that is used again is reset first. */
    lemma LoginMayStart()
      requires talk == []
      ensures request.cached.Some? ==> MayFollow(request, talk, LoginVerb(LOGIN_REIN))
    {}

    lemma NothingSaid()
      requires talk == []
      ensures Prior(talk).None?
    {}

    method Greeting() returns (blocked: bool)
      requires LoginState() && Faithful() && substate == LOGIN_GREETING
      modifies this`script, this`repcode, this`reply, this`alreadyLoggedIn, this`saidAlready, this`talk, this`substate
      ensures Faithful() && |script| <= |old(script)| && (!blocked ==> |script| < |old(script)|)
      ensures LoginState()
      ensures substate == LOGIN_UID || substate == LOGIN_PROMPT ==> repcode / 100 == 2
    {
      hide Count, PathCommands, OnlyLogin, Faithful, Prior, Earlier, Code, SaysAlready, MayFollow, MayFail, LoggedIn;
      NothingSaid();
      var status, _ := ReadControl();
      if status.WouldBlock? {
        return true;
      }
      if status.Loaded? {
        LoginReplies(request, talk);
      } else {
        LossFails(request, talk);
      }
      substate := if status.Loaded? && repcode / 100 == 2 then (if uid != "" then LOGIN_UID else LOGIN_PROMPT)
                  else SUB_ERROR;
      blocked := false;
    }

    /** What the user says replaces name and password. */
    method AskUser()
      requires Faithful()
      modifies this`script, this`uid, this`passwd
      ensures Faithful() && |script| <= |old(script)|
      ensures uid != "" || passwd != "" ==> |script| < |old(script)|
      ensures var a := Upcoming(old(script));
              if a.status.Ok? then uid == a.text && passwd == a.secret else uid == passwd == ""
    {
      hide Proper, Commands;
      var a := Ask();
      if a.status.Ok? {
        uid, passwd := a.text, a.secret;
      } else {
        uid, passwd := "", "";
      }
    }

    /** Ask the user; without both name and password the login fails. */
    method Prompt()
      requires LoginState() && Faithful() && substate == LOGIN_PROMPT
      modifies this`script, this`substate, this`uid, this`passwd
      ensures Faithful() && |script| <= |old(script)|
      ensures LoginState()
      ensures if substate == LOGIN_UID then uid != "" && passwd != "" && |script| < |old(script)|
              else substate == SUB_ERROR
      ensures var a := Upcoming(old(script));
              substate == LOGIN_UID <==> a.status.Ok? && a.text != "" && a.secret != ""
    {
      hide Count, PathCommands, OnlyLogin, Faithful, Prior, Earlier, Code, SaysAlready, MayFollow, MayFail, LoggedIn;
      MayGiveUp(request, talk);
      AskUser();
      substate := if uid != "" && passwd != "" then LOGIN_UID else SUB_ERROR;
    }

    function LoginArgument(): string
      reads this`substate, this`uid, this`passwd, this`account
    {
      if substate == LOGIN_REIN then "" else if substate == LOGIN_PASSWD then passwd
      else if substate == LOGIN_ACCOUNT then account else uid
    }

    lemma LoginCarries()
      requires Faithful() && LoginWords() && LOGIN_REIN <= substate <= LOGIN_ACCOUNT
      ensures MayCarry(request, given, Command(LoginVerb(substate), LoginArgument()))
    {
      hide Proper, Commands;
    }

    method LoginCommand()
      requires LoginState() && Faithful() && !sent && LOGIN_REIN <= substate <= LOGIN_ACCOUNT
      modifies this`wire, this`talk, this`sent
      ensures LoginState() && Faithful() && sent
      ensures wire == old(wire) + [if substate == LOGIN_REIN then Command(Rein, "")
                                   else if substate == LOGIN_PASSWD then Command(Pass, passwd)
                                   else if substate == LOGIN_ACCOUNT then Command(Acct, account)
                                   else Command(User, uid)]
    {
      hide Count, PathCommands, Faithful, MayCarry, Prior, Earlier, Code, SaysAlready, MayFollow, MayFail, LoggedIn;
      LoginCarries();
      SendCommand(LoginVerb(substate), LoginArgument());
      sent := true;
    }

    method LoginReply() returns (status: Status)
      requires LoginState() && Faithful() && sent
      modifies this`script, this`repcode, this`reply, this`alreadyLoggedIn, this`saidAlready, this`talk,
               this`substate, this`sent, this`account
      ensures Faithful() && |script| <= |old(script)| && (!status.WouldBlock? ==> |script| < |old(script)|)
      ensures LoginState()
      ensures status.WouldBlock? ==> substate == old(substate) && sent
      ensures !status.WouldBlock? && !status.Loaded? ==> substate == SUB_ERROR
      ensures status.Loaded? ==> LoginStep(old(substate), repcode, saidAlready)
    {
      hide LoginState, LoginStep, Faithful, Prior, Earlier, Code, SaysAlready, MayFail;
      LoginSent();
      var got, _ := ReadControl();
      status := got;
      if status.WouldBlock? {
        LoginUnchanged();
        return;
      }
      if status.Loaded? {
        FollowReply();
      } else {
        substate := SUB_ERROR;
      }
      sent := false;
      LoginAfterReply(talk[|talk| - 1]);
    }

    lemma LoginSent()
      requires LoginState() && sent
      ensures LOGIN_REIN <= substate <= LOGIN_ACCOUNT
    {}

    /** Nothing but replies to login commands came in. */
    twostate predicate LoginFrame()
      reads this
    {
      unchanged(this`wire, this`offset, this`cwd, this`complete, this`overrun, this`putDone, this`setups, this`pasv,
                this`reset, this`uid, this`passwd)
    }

    twostate lemma LoginUnchanged()
      requires old(LoginState()) && LoginFrame() && talk == old(talk)
      requires unchanged(this`substate, this`sent, this`account)
      ensures LoginState()
    {
      hide Count, PathCommands, OnlyLogin, MayFail, MayFollow, LoggedIn, Awaits;
    }

    twostate lemma LoginAfterReply(turn: Turn)
      requires old(LoginState()) && LoginFrame() && old(sent) && !sent && LoginWords()
      requires !turn.Said? && talk == old(talk) + [turn]
      requires Prior(talk) == old(Prior(talk)) && Earlier(talk) == old(Earlier(talk))
      requires turn.Heard? ==> Code(talk) == Some(turn.code) && SaysAlready(talk) == turn.already
      requires turn.Lost? ==> substate == SUB_ERROR
      requires turn.Heard? ==> LoginStep(old(substate), turn.code, turn.already)
      ensures LoginState()
    {
      hide Count, PathCommands, OnlyLogin, Prior, Earlier, Code, SaysAlready, MayFollow, MayFail, LoggedIn;
      if turn.Heard? {
        LoginReplies(request, talk);
      } else {
        LossFails(request, talk);
      }
    }

    /** The new sub-state is the one a reply with this code leads to. */
    ghost predicate LoginStep(from: int, code: nat, already: bool)
      reads this`substate, this`uid, this`passwd
    {
      if from == LOGIN_REIN then
        substate == if code / 100 != 2 && code != 502 then SUB_SUCCESS
                    else if uid != "" then LOGIN_UID_NO_REIN else LOGIN_PROMPT
      else if from == LOGIN_PASSWD then
        if code / 100 == 3 then substate == LOGIN_ACCOUNT || substate == SUB_ERROR
        else substate == if code / 100 == 2 then SUB_SUCCESS else if code == 530 then LOGIN_PROMPT else SUB_ERROR
      else if from == LOGIN_ACCOUNT then substate == if code / 100 == 2 then SUB_SUCCESS else SUB_ERROR
      else
        substate == if code / 100 == 2 then SUB_SUCCESS
                    else if code / 100 == 3 then (if passwd != "" then LOGIN_PASSWD else LOGIN_PROMPT)
                    else if code != 530 then SUB_ERROR
                    else if already || from == LOGIN_UID_NO_REIN then SUB_SUCCESS else LOGIN_PROMPT
    }

    /** Go where a complete reply leads. */
    method FollowReply()
      requires Faithful() && LOGIN_REIN <= substate <= LOGIN_ACCOUNT && alreadyLoggedIn == saidAlready
      modifies this`script, this`substate, this`account, this`alreadyLoggedIn
      ensures Faithful() && |script| <= |old(script)| && LoginWords()
      ensures LoginStep(old(substate), repcode, saidAlready)
    {
      hide Faithful;
      if substate == LOGIN_REIN {
        substate := if repcode / 100 != 2 && repcode != 502 then SUB_SUCCESS
                    else if uid != "" then LOGIN_UID_NO_REIN else LOGIN_PROMPT;
      } else if substate == LOGIN_PASSWD {
        PasswdReply();
      } else if substate == LOGIN_ACCOUNT {
        substate := if repcode / 100 == 2 then SUB_SUCCESS else SUB_ERROR;
      } else {
        UserReply();
      }
    }

    method UserReply()
      requires substate == LOGIN_UID || substate == LOGIN_UID_NO_REIN
      modifies this`substate, this`alreadyLoggedIn
      ensures substate == if repcode / 100 == 2 then SUB_SUCCESS
                          else if repcode / 100 == 3 then (if passwd != "" then LOGIN_PASSWD else LOGIN_PROMPT)
                          else if repcode != 530 then SUB_ERROR
                          else if old(alreadyLoggedIn) || old(substate) == LOGIN_UID_NO_REIN then SUB_SUCCESS
                          else LOGIN_PROMPT
    {
      if repcode / 100 == 2 {
        substate := SUB_SUCCESS;
      } else if repcode / 100 == 3 {
        substate := if passwd != "" then LOGIN_PASSWD else LOGIN_PROMPT;
      } else if repcode == 530 {
        if substate == LOGIN_UID_NO_REIN {
          alreadyLoggedIn := true;
        }
        substate := if alreadyLoggedIn then SUB_SUCCESS else LOGIN_PROMPT;
      } else {
        substate := SUB_ERROR;
      }
    }

    /** Under a 3xx reply the user is asked for an account, and may refuse to name one. */
    method PasswdReply()
      requires Faithful() && substate == LOGIN_PASSWD
      modifies this`script, this`substate, this`account
      ensures Faithful() && |script| <= |old(script)|
      ensures if repcode / 100 == 3 then
                var a := Upcoming(old(script));
                if a.status.Ok? then substate == LOGIN_ACCOUNT && account == a.text && IsAnswered(account)
                else substate == SUB_ERROR
              else substate == if repcode / 100 == 2 then SUB_SUCCESS
                               else if repcode == 530 then LOGIN_PROMPT else SUB_ERROR
    {
      hide Faithful;
      if repcode / 100 == 2 {
        substate := SUB_SUCCESS;
      } else if repcode / 100 == 3 {
        var a := Ask();
        if a.status.Ok? {
          account := a.text;
          substate := LOGIN_ACCOUNT;
        } else {
          substate := SUB_ERROR;
        }
      } else if repcode == 530 {
        substate := LOGIN_PROMPT;
      } else {
        substate := SUB_ERROR;
      }
    }

    // ----- the data connection machine

    method DataConnection() returns (status: Status)
      requires SetupState() && Typing() && Faithful()
      modifies this`script, this`repcode, this`reply, this`alreadyLoggedIn, this`saidAlready, this`wire,
               this`talk, this`substate, this`sent, this`pasv
      ensures Faithful() && |script| <= |old(script)|
      ensures Settles(status)
      ensures status.WouldBlock? ==> SetupState()
      ensures !status.WouldBlock? ==> substate == 0
      ensures status.Ok? ==> !sent && Untouched() && Asked() && Agreed() && Accepted()
      ensures status.Ok? ==> Connected(talk) && Linked()
      ensures status.Error? ==> Untouched() && Limits() && MayFail(request, talk)
    {
      hide Count, PathCommands, Untouched, Asked, Agreed, Accepted, Limits, Faithful, MayFail, MayFollow;
      while true
        invariant SetupState() && Faithful() && |script| <= |old(script)|
        decreases |script|, if substate < 0 then 0 else 9 - substate, !sent
      {
        if substate == DCON_TYPE && (pasv || IsDir(dataType)) {
          substate := DCON_SELECT;
        } else if substate == DCON_SELECT {
          SelectConnection();
        } else if substate == SUB_ERROR {
          AskedOnce();
          UntouchedLimits();
          substate := 0;
          return Error;
        } else if substate == SUB_SUCCESS {
          substate := 0;
          return Ok;
        } else if !sent {
          SetupCommand();
        } else {
          var answer := SetupReply();
          if answer.WouldBlock? {
            return WouldBlock;
          }
        }
      }
    }

    /** Passive if that is allowed and was not tried, else by a port of our own. */
    method SelectConnection()
      requires SetupState() && Faithful() && substate == DCON_SELECT
      modifies this`script, this`substate
      ensures SetupState() && Faithful() && |script| <= |old(script)|
      ensures substate == if request.passiveMode && !pasv then DCON_PASV
                          else if Upcoming(old(script)).status.Ok? then DCON_PORT else SUB_ERROR
    {
      hide Count, PathCommands, Untouched, Asked, Agreed, Accepted, Faithful, Prior, Earlier, Code, SaysAlready,
           MayFollow, MayFail, LoggedIn, Typed, Connected;
      if pasv {
        MayGiveUp(request, talk);
      } else {
        TypedLeads(request, talk);
      }
      if request.passiveMode && !pasv {
        substate := DCON_PASV;
      } else {
        var accept := Ask();
        substate := if accept.status.Ok? then DCON_PORT else SUB_ERROR;
      }
    }

    lemma SetupMayFollow()
      requires SetupState() && Typing() && !sent && 0 <= substate && substate != DCON_SELECT
      requires substate == DCON_TYPE ==> !pasv && !IsDir(dataType)
      ensures MayFollow(request, talk, SetupVerb(substate))
      ensures substate == DCON_PASV ==> request.passiveMode
      ensures MayCarry(request, given,
                       Command(SetupVerb(substate), if substate == DCON_TYPE then TypeLetter(dataType) else ""))
    {
      hide Count, PathCommands, Prior, Earlier, Code, SaysAlready, LoggedIn, Untouched, Asked, Agreed;
    }

    /** A command of the set-up has just been sent. */
    twostate lemma SetupAfterCommand()
      requires old(SetupState()) && old(!sent) && 0 <= old(substate) && substate != DCON_SELECT && sent
      requires substate == DCON_TYPE ==> !pasv && !IsDir(dataType)
      requires unchanged(this`offset, this`cwd, this`complete, this`overrun, this`putDone, this`setups, this`pasv,
                         this`substate, this`server, this`dataType, this`repcode)
      requires forall v :: Count(wire, v) == old(Count(wire, v)) + if v == SetupVerb(substate) then 1 else 0
      requires PathCommands(wire) == old(PathCommands(wire))
      requires Awaits(talk, SetupVerb(substate)) && (substate == DCON_PASV ==> request.passiveMode)
      ensures SetupState()
    {
      hide Count, PathCommands, MayFollow, MayFail, Connected, Typed, LoggedIn, Awaits;
    }

    method SetupCommand()
      requires SetupState() && Typing() && Faithful() && !sent && 0 <= substate && substate != DCON_SELECT
      requires substate == DCON_TYPE ==> !pasv && !IsDir(dataType)
      modifies this`wire, this`talk, this`sent
      ensures SetupState() && Faithful() && sent
      ensures wire == old(wire) + [if substate == DCON_TYPE then Command(Type, if dataType.Ascii? then "A" else "I")
                                   else if substate == DCON_PASV then Command(Pasv, "") else Command(Port, "")]
    {
      hide Count, PathCommands, Faithful, SetupState, MayCarry, MayFollow;
      SetupMayFollow();
      SendCommand(SetupVerb(substate), if substate == DCON_TYPE then TypeLetter(dataType) else "");
      sent := true;
      SetupAfterCommand();
    }

    method SetupReply() returns (status: Status)
      requires SetupState() && Typing() && Faithful() && sent && 0 <= substate
      modifies this`script, this`repcode, this`reply, this`alreadyLoggedIn, this`saidAlready, this`talk,
               this`substate, this`sent, this`pasv
      ensures Faithful() && |script| <= |old(script)| && (!status.WouldBlock? ==> |script| < |old(script)|)
      ensures SetupState()
      ensures status.WouldBlock? ==> substate == old(substate) && sent
      ensures !status.WouldBlock? && !status.Loaded? ==> substate == SUB_ERROR
      ensures status.Loaded? ==> SetupStep(old(substate), repcode)
    {
      hide Faithful, SetupState, SetupStep, MayFail, Prior, Earlier, Code, SaysAlready;
      SetupSent();
      var address;
      status, address := ReadControl();
      if status.WouldBlock? {
        SetupUnchanged();
        return;
      }
      var addressMissing := false;
      if status.Loaded? {
        addressMissing := FollowSetup(address);
      } else {
        substate := SUB_ERROR;
      }
      sent := addressMissing;    // an unreadable address leaves sent set
      SetupAfterReply(talk[|talk| - 1]);
    }

    lemma SetupSent()
      requires SetupState() && Typing() && sent && 0 <= substate
      ensures substate == DCON_TYPE || substate == DCON_PASV || substate == DCON_PORT
      ensures (substate == DCON_PASV ==> !pasv) && (substate == DCON_TYPE ==> !pasv && !Listing(request))
    {}

    /** No set-up command was sent and nothing said about the file since. */
    twostate predicate SetupFrame()
      reads this
    {
      unchanged(this`wire, this`offset, this`cwd, this`complete, this`overrun, this`putDone, this`setups, this`server,
                this`dataType)
    }

    /** The new sub-state is the one a reply with this code leads to. */
    ghost predicate SetupStep(from: int, code: nat)
      reads this`substate, this`pasv
    {
      if from == DCON_TYPE then !pasv && substate == if code / 100 == 2 then DCON_SELECT else SUB_ERROR
      else if from == DCON_PORT then !pasv && substate == if code / 100 == 2 then SUB_SUCCESS else SUB_ERROR
      else if code == 227 then substate == if pasv then SUB_SUCCESS else SUB_ERROR    // without an address
      else !pasv && (substate == DCON_PORT || substate == SUB_ERROR)                  // without a socket
    }

    twostate lemma SetupUnchanged()
      requires old(SetupState()) && SetupFrame() && talk == old(talk)
      requires unchanged(this`substate, this`sent, this`pasv) && old(sent)
      ensures SetupState()
    {
      hide Count, PathCommands, Untouched, Asked, MayFail, MayFollow, Connected, Typed, LoggedIn, Awaits;
    }

    twostate lemma SetupAfterReply(turn: Turn)
      requires old(SetupState()) && SetupFrame() && Typing() && old(sent) && 0 <= old(substate)
      requires !turn.Said? && talk == old(talk) + [turn] && Prior(talk) == old(Prior(talk))
      requires turn.Heard? ==> Code(talk) == Some(turn.code)
      requires sent ==> substate == SUB_ERROR
      requires turn.Heard? ==> repcode == turn.code
      requires if turn.Lost? then substate == SUB_ERROR else SetupStep(old(substate), turn.code)
      ensures SetupState()
    {
      hide Count, PathCommands, Untouched, Asked, Prior, Code, MayFail, MayFollow, Connected, Typed, LoggedIn;
      if turn.Heard? {
        SetupReplies(request, talk);
      } else {
        LossFails(request, talk);
      }
    }

    /** Go where a complete reply leads. */
    method FollowSetup(address: bool) returns (addressMissing: bool)
      requires Faithful() && (substate == DCON_TYPE || substate == DCON_PASV || substate == DCON_PORT)
      requires substate == DCON_PASV || substate == DCON_TYPE ==> !pasv
      modifies this`script, this`substate, this`pasv
      ensures Faithful() && |script| <= |old(script)|
      ensures addressMissing <==> old(substate) == DCON_PASV && repcode == 227 && !address
      ensures addressMissing ==> substate == SUB_ERROR
      ensures old(substate) == DCON_TYPE ==> pasv == old(pasv)
      ensures old(substate) == DCON_PASV ==> (pasv <==> repcode == 227 && address)
      ensures SetupStep(old(substate), repcode)
    {
      hide Faithful;
      addressMissing := false;
      if substate == DCON_TYPE {
        substate := if repcode / 100 == 2 then DCON_SELECT else SUB_ERROR;
      } else if substate == DCON_PASV {
        PassiveReply(address);
        addressMissing := repcode == 227 && !address;
      } else {
        pasv := false;
        substate := if repcode / 100 == 2 then SUB_SUCCESS else SUB_ERROR;
      }
    }

    method PassiveReply(address: bool)
      requires Faithful() && substate == DCON_PASV && !pasv
      modifies this`script, this`substate, this`pasv
      ensures Faithful() && |script| <= |old(script)|
      ensures pasv <==> repcode == 227 && address
      ensures substate == if repcode == 227 then (if address then SUB_SUCCESS else SUB_ERROR)
                          else if Upcoming(old(script)).status.Ok? then DCON_PORT else SUB_ERROR
    {
      hide Faithful;
      if repcode == 227 {
        if address {
          pasv := true;
          substate := SUB_SUCCESS;
        } else {
          substate := SUB_ERROR;
        }
      } else {
        var accept := Ask();
        substate := if accept.status.Ok? then DCON_PORT else SUB_ERROR;
      }
    }

    // ----- the server type machine

    method ServerInfo() returns (status: Status)
      requires InfoState() && MayList() && Faithful()
      modifies this`script, this`repcode, this`reply, this`alreadyLoggedIn, this`saidAlready, this`wire,
               this`talk, this`substate, this`sent, this`server, this`dataType, this`inquiry
      ensures Faithful() && |script| <= |old(script)|
      ensures Settles(status)
      ensures status.WouldBlock? ==> InfoState() && MayList()
      ensures !status.WouldBlock? ==> substate == 0 && !sent && Untouched() && Agreed() && Asked()
      ensures !status.WouldBlock? ==> server != Unsure && ServerSettled() && Linked() && Lists()
    {
      hide Count, PathCommands, SystemServer, DirectoryServer, Untouched, Faithful, Inquired, Settled, InfoDue,
           Linked, ServerSettled;
      while true
        invariant InfoState() && Typing() && Faithful() && |script| <= |old(script)|
        decreases |script|, if substate < 0 then 0 else 9 - substate, !sent
      {
        InfoLeads();
        if substate == SERVER_SYST && !sent && !server.Unsure? {
          dataType := ListType(server);
          return Ok;
        } else if substate == SERVER_CHECK_SYST {
          CheckSystem();
        } else if substate == SERVER_CHECK_PWD {
          CheckDirectory();
        } else if substate == SUB_ERROR {
          substate := 0;
          server := Generic;
          Conclude();
          return Error;
        } else if substate == SUB_SUCCESS {
          dataType := ListType(server);
          substate := 0;
          Conclude();
          return Ok;
        } else if !sent {
          ServerCommand();
        } else {
          var answer := ServerReply();
          if answer.WouldBlock? {
            return WouldBlock;
          }
        }
      }
    }

    lemma InfoLeads()
      requires InfoDue() && Listing(request) && SUB_ERROR <= substate <= SERVER_CHECK_PWD
      ensures substate == SERVER_SYST && !sent ==> Linked() && ServerSettled()
      ensures substate < 0 ==>
                Settled(talk, if substate == SUB_ERROR then Generic else server) && Inquired(request, talk)
      ensures !sent && (substate == SERVER_PWD || (substate == SERVER_SYST && server.Unsure?)) ==>
                MayFollow(request, talk, if substate == SERVER_SYST then Syst else Pwd)
    {
      hide GuessOf, Settled, DirectoryServer, Prior, MayFollow, Inquired, Linked, ServerSettled;
      if substate == SERVER_PWD && !sent {
        InquiryLeads(request, talk);
      }
    }

    twostate lemma InfoAfterCommand()
      requires old(InfoDue()) && old(!sent) && sent && unchanged(this`substate, this`server, this`pasv, this`reply)
      requires substate == SERVER_PWD || (substate == SERVER_SYST && server.Unsure?)
      requires talk == old(talk) + [if substate == SERVER_SYST then SYST else PWD]
      ensures InfoDue()
    {
      hide GuessOf, Settled, DirectoryServer, Prior, MayFollow, Inquired, Linked, ServerSettled;
    }

    twostate lemma InfoUnchanged()
      requires old(InfoDue())
      requires talk == old(talk)
      requires unchanged(this`substate, this`sent, this`server, this`pasv, this`reply, this`inquiry)
      ensures InfoDue()
    {
      hide GuessOf, Settled, DirectoryServer, Prior, MayFollow, Inquired, Connected, ServerSettled;
    }

    twostate lemma InfoAfterReply(turn: Turn)
      requires old(InfoDue()) && old(sent) && !sent && unchanged(this`server, this`pasv) && Listing(request)
      requires old(substate) == SERVER_PWD || old(substate) == SERVER_SYST
      requires !turn.Said? && talk == old(talk) + [turn] && (turn.Heard? ==> reply == turn.text)
      requires substate == if turn.Lost? then SUB_ERROR
                           else if old(substate) == SERVER_SYST then
                             (if turn.code == 215 then SERVER_CHECK_SYST else SERVER_PWD)
                           else (if turn.code / 100 == 2 then SERVER_CHECK_PWD else SUB_ERROR)
      ensures InfoDue()
    {
      hide SystemServer, DirectoryServer, Prior, MayFollow, Inquired, Linked, ServerSettled;
      InquiryLeads(request, talk);
    }

    /** The server type is settled; remember by which part of the conversation. */
    ghost method Conclude()
      requires Faithful() && Settled(talk, server) && Inquired(request, talk) && Listing(request)
      requires pasv ==> request.passiveMode
      modifies this`inquiry
      ensures Faithful() && ServerSettled() && Linked()
    {
      hide Prior, GuessOf, DirectoryServer;
      inquiry := talk;
    }

    method CheckSystem()
      requires InfoState() && substate == SERVER_CHECK_SYST
      modifies this`substate, this`server
      ensures InfoState()
      ensures server == if reply == "" then old(server) else SystemServer(old(server), reply)
      ensures substate == if reply == "" || Guess(server) then SERVER_PWD else SUB_SUCCESS
    {
      hide Count, PathCommands, SystemServer, DirectoryServer, Untouched, Agreed, MayFollow;
      InquiryLeads(request, talk);
      if reply == "" {
        substate := SERVER_PWD;
      } else {
        server := SystemServer(server, reply);
        substate := if Guess(server) then SERVER_PWD else SUB_SUCCESS;
      }
    }

    method CheckDirectory()
      requires InfoState() && substate == SERVER_CHECK_PWD
      modifies this`substate, this`server
      ensures InfoState() && substate == SUB_SUCCESS
      ensures server == DirectoryServer(old(server), reply)
    {
      hide Count, PathCommands, SystemServer, DirectoryServer, Untouched, Agreed, MayFollow;
      InquiryLeads(request, talk);
      server := DirectoryServer(server, reply);
      substate := SUB_SUCCESS;
    }

    lemma InquiryMayGoOn()
      requires InfoState() && !sent && (substate == SERVER_PWD || (substate == SERVER_SYST && server.Unsure?))
      ensures MayFollow(request, talk, if substate == SERVER_SYST then Syst else Pwd)
      ensures MayCarry(request, given, Command(if substate == SERVER_SYST then Syst else Pwd, ""))
    {
      hide Count, PathCommands, Untouched, Agreed, InfoDue, MayFollow;
      InfoLeads();
    }

    lemma InquiryAwaits()
      requires InfoState() && sent
      ensures substate == SERVER_SYST || substate == SERVER_PWD
    {
      hide Count, PathCommands, Untouched, Agreed, InfoDue;
    }

    twostate predicate InfoFrame()
      reads this
    {
      unchanged(this`offset, this`cwd, this`complete, this`overrun, this`putDone, this`setups, this`pasv, this`server,
                this`dataType, this`inquiry)
    }

    twostate lemma InfoSent()
      requires old(InfoState()) && InfoFrame() && unchanged(this`substate, this`reply) && old(!sent) && sent
      requires substate == SERVER_PWD || (substate == SERVER_SYST && server.Unsure?)
      requires talk == old(talk) + [if substate == SERVER_SYST then SYST else PWD]
      requires forall v :: Count(wire, v) == old(Count(wire, v))
                                           + if v == (if substate == SERVER_SYST then Syst else Pwd) then 1 else 0
      requires PathCommands(wire) == old(PathCommands(wire))
      ensures InfoState()
    {
      hide Count, PathCommands, InfoDue;
      InfoAfterCommand();
    }

    twostate lemma InfoBlocked()
      requires old(InfoState()) && InfoFrame() && unchanged(this`wire, this`substate, this`sent, this`reply)
      requires talk == old(talk)
      ensures InfoState()
    {
      hide Count, PathCommands, Untouched, Agreed, Asked, InfoDue;
      InfoUnchanged();
    }

    twostate lemma InfoAnswered(turn: Turn)
      requires old(InfoState()) && InfoFrame() && unchanged(this`wire) && old(sent) && !sent
      requires !turn.Said? && talk == old(talk) + [turn] && (turn.Heard? ==> reply == turn.text)
      requires substate == if turn.Lost? then SUB_ERROR
                           else if old(substate) == SERVER_SYST then
                             (if turn.code == 215 then SERVER_CHECK_SYST else SERVER_PWD)
                           else (if turn.code / 100 == 2 then SERVER_CHECK_PWD else SUB_ERROR)
      ensures InfoState()
    {
      hide Count, PathCommands, Untouched, Agreed, Asked, InfoDue;
      InfoAfterReply(turn);
    }

    method ServerCommand()
      requires InfoState() && Faithful()
      requires !sent && (substate == SERVER_PWD || (substate == SERVER_SYST && server.Unsure?))
      modifies this`wire, this`talk, this`sent
      ensures InfoState() && Faithful() && sent
      ensures wire == old(wire) + [Command(if substate == SERVER_SYST then Syst else Pwd, "")]
    {
      hide Count, PathCommands, Faithful, InfoState, InfoDue, Prior, MayFollow, MayCarry, Inquired, Settled;
      InquiryMayGoOn();
      SendCommand(if substate == SERVER_SYST then Syst else Pwd, "");
      sent := true;
      InfoSent();
    }

    method ServerReply() returns (status: Status)
      requires InfoState() && Faithful() && sent
      modifies this`script, this`repcode, this`reply, this`alreadyLoggedIn, this`saidAlready, this`talk,
               this`substate, this`sent
      ensures Faithful() && |script| <= |old(script)| && (!status.WouldBlock? ==> |script| < |old(script)|)
      ensures InfoState()
      ensures status.WouldBlock? ==> substate == old(substate) && sent
      ensures !status.WouldBlock? && !status.Loaded? ==> substate == SUB_ERROR
      ensures status.Loaded? && old(substate) == SERVER_SYST ==>
                substate == if repcode == 215 then SERVER_CHECK_SYST else SERVER_PWD
      ensures status.Loaded? && old(substate) == SERVER_PWD ==>
                substate == if repcode / 100 == 2 then SERVER_CHECK_PWD else SUB_ERROR
    {
      hide Faithful, InfoState, InfoDue, Prior, Code, Earlier, SaysAlready;
      InquiryAwaits();
      var got, _ := ReadControl();
      status := got;
      if status.WouldBlock? {
        InfoBlocked();
        return;
      }
      if !status.Loaded? {
        substate := SUB_ERROR;
      } else if substate == SERVER_SYST {
        substate := if repcode == 215 then SERVER_CHECK_SYST else SERVER_PWD;
      } else {
        substate := if repcode / 100 == 2 then SERVER_CHECK_PWD else SUB_ERROR;
      }
      sent := false;
      InfoAnswered(talk[|talk| - 1]);
    }

    // ----- the transfer machine

    method GetData(dataSocket: bool) returns (status: Status)
      requires DataState(None) && Lists() && ServerSettled() && Faithful() && substate != DATA_SEGMENT
      modifies this`script, this`repcode, this`reply, this`alreadyLoggedIn, this`saidAlready, this`wire,
               this`talk, this`substate, this`sent, this`cwd, this`offset, this`complete, this`dataDone,
               this`putDone, this`overrun
      ensures Faithful() && |script| <= |old(script)|
      ensures status.WouldBlock? || status.Ok? || status.Loaded? || status.Error?
      ensures status.WouldBlock? ==> DataState(None) && substate != DATA_SEGMENT
      ensures !status.WouldBlock? ==> substate == 0 && !sent
      ensures status.Ok? ==> |script| < |old(script)| && Untouched() && Agreed() && Asked() && pasv && Linked()
      ensures status.Loaded? ==> Transferred() && Confirmed(talk)
      ensures status.Error? ==> Limits() && MayFail(request, talk)
    {
      hide ActionDue, SegmentDue, DirectoryDue, AllSent, Agreed, Asked, Count, PathCommands, ThePlan, WalksOn,
           Limits, Untouched, Transferred, Completion, DataDue, Linked, Confirmed, MayFail, Faithful, Typing,
           ServerSettled;
      var segment := None;
      var active := dataSocket;
      while true
        invariant DataState(segment) && Faithful() && |script| <= |old(script)|
        decreases |script|, DataRank(substate), !sent
      {
        DataLeads();
        var blocked := false;
        if substate == SUB_ERROR {
          GivenUp(segment);
          substate := 0;
          return Error;
        } else if substate == SUB_SUCCESS {
          AllDone(segment);
          substate := 0;
          return Loaded;
        } else if substate <= DATA_ACCEPT {
          var swap;
          blocked, swap := Connection(segment);
          if swap {
            return Ok;
          }
        } else if substate >= DATA_STREAM {
          blocked, active := Streaming(active, segment);
        } else {
          blocked, segment := Conversation(segment);
        }
        if blocked {
          return WouldBlock;
        }
      }
    }

    /** The sub-states after the transfer command was confirmed. */
    method Streaming(wasActive: bool, ghost segment: Option<string>) returns (blocked: bool, active: bool)
      requires DataState(segment) && Faithful() && DATA_STREAM <= substate
      modifies this`script, this`repcode, this`reply, this`alreadyLoggedIn, this`saidAlready, this`talk,
               this`substate, this`complete, this`dataDone, this`putDone
      ensures DataState(segment) && Faithful() && |script| <= |old(script)|
      ensures blocked ==> substate < 0 || substate == DATA_BODY
      ensures !blocked ==> |script| < |old(script)| || DataRank(substate) < old(DataRank(substate))
    {
      hide AllSent, Agreed, Asked, Count, PathCommands, ThePlan, WalksOn, Completion, DataDue, Confirmed,
           MayFail, Faithful;
      DataLeads();
      if substate == DATA_STREAM {
        blocked, active := false, true;
        substate := DATA_BODY;
      } else {
        blocked, active := Body(wasActive);
        NotYetGivenUp();
      }
      DataGoesOn();
    }

    /** The sub-states that open the data connection; a failure to connect swaps to PORT on the fly. */
    method Connection(ghost segment: Option<string>) returns (blocked: bool, swap: bool)
      requires DataState(segment) && Faithful() && DATA_SELECT <= substate <= DATA_ACCEPT
      modifies this`script, this`substate
      ensures Faithful() && |script| <= |old(script)|
      ensures if swap then
                && substate == DATA_SELECT && !sent && pasv && Untouched() && Agreed() && Asked() && Linked()
                && |script| < |old(script)|
              else DataState(segment)
      ensures blocked ==> substate == old(substate)
      ensures !blocked && !swap ==> |script| < |old(script)| || DataRank(substate) < old(DataRank(substate))
    {
      hide ActionDue, SegmentDue, DirectoryDue, AllSent, Agreed, Asked, Count, PathCommands, ThePlan, Untouched,
           Completion, DataDue, Linked, Confirmed, MayFail, Faithful;
      blocked, swap := false, false;
      DataLeads();
      if substate == DATA_SELECT {
        FirstAction();
        substate := if pasv then DATA_CONNECT else DATA_REST;
      } else {
        var a := Ask();
        if a.status.WouldBlock? {
          blocked := true;
        } else if substate == DATA_CONNECT {
          FirstAction();
          substate := if a.status.Ok? then DATA_REST else DATA_SELECT;
          swap := !a.status.Ok?;
        } else {
          NotYetGivenUp();
          substate := if a.status.Ok? then DATA_STREAM else SUB_ERROR;
        }
      }
      if !blocked && !swap {
        DataGoesOn();
      }
    }

    /** What the conversation has come to, sub-state by sub-state. */
    lemma DataLeads()
      requires DataDue() && SUB_ERROR <= substate <= DATA_BODY
      ensures substate == SUB_ERROR ==> MayFail(request, talk)
      ensures substate == DATA_SELECT || substate == DATA_CONNECT ==>
                Linked() && (!sent ==> Prepared(request, talk))
      ensures substate == DATA_ACCEPT || substate == SUB_SUCCESS || DATA_STREAM <= substate ==> Confirmed(talk)
    {
      hide Connected, Inquired, MayFollow, MayFail, Got;
    }

    lemma DataGoesOn()
      requires SUB_ERROR <= substate <= DATA_BODY
      requires substate == DATA_SELECT || substate == DATA_CONNECT ==> Linked()
      requires substate == DATA_REST ==> !sent && Prepared(request, talk)
      requires substate == DATA_ACCEPT || substate == SUB_SUCCESS || DATA_STREAM <= substate ==> Confirmed(talk)
      requires substate == SUB_ERROR ==> Confirmed(talk)
      requires substate == DATA_ACTION || substate == DATA_SEGMENT || substate == DATA_CWD ==> DataDue()
      ensures DataDue()
    {
      hide Linked, Prepared;
    }

    /** The sub-states that talk to the server about the file. */
    method Conversation(before: Option<string>) returns (blocked: bool, segment: Option<string>)
      requires DataState(before) && Typing() && Faithful() && DATA_REST <= substate <= DATA_SEGMENT
      modifies this`script, this`repcode, this`reply, this`alreadyLoggedIn, this`saidAlready, this`wire,
               this`talk, this`substate, this`sent, this`cwd, this`offset, this`overrun
      ensures Faithful() && |script| <= |old(script)|
      ensures DataState(segment)
      ensures blocked ==> segment == before && substate != DATA_SEGMENT && (substate == DATA_CWD ==> sent)
      ensures blocked || |script| < |old(script)| || DataRank(substate) < old(DataRank(substate))
              || (substate == old(substate) && sent && old(!sent))
    {
      hide ActionDue, SegmentDue, DirectoryDue, AllSent, Agreed, Asked, Count, PathCommands, ThePlan, DataDue,
           Typing, Faithful;
      blocked, segment := false, before;
      if substate == DATA_REST {
        blocked := Restart();
        BeforeAction();
      } else if substate == DATA_ACTION {
        ActionInBounds();
        blocked := Action();
        if substate == SUB_ERROR {
          NotYetGivenUp();
        }
      } else if substate == DATA_SEGMENT {
        SegmentInOrder();
        segment := NextSegment();
        PlanForNothing();
      } else {
        blocked := ChangeDirectory(segment);
        BeforeSegment();
      }
    }

    lemma FirstAction()
      requires Untouched()
      ensures ActionDue(false)
    {}

    lemma NotYetGivenUp()
      requires AllSent()
      ensures PathCommands(wire) <= ThePlan() && !WalksOn()
    {}

    lemma SegmentInOrder()
      requires SegmentDue()
      ensures cwd == (offset > 0)
    {}

    lemma PlanForNothing()
      ensures request.file == "" ==> |ThePlan()| == 2
    {}

    /** An optional REST before the action. */
    method Restart() returns (blocked: bool)
      requires substate == DATA_REST && ActionDue(false) && Agreed() && Asked() && DataDue() && Faithful()
      modifies this`script, this`repcode, this`reply, this`alreadyLoggedIn, this`saidAlready, this`wire,
               this`talk, this`substate, this`sent
      ensures Faithful() && |script| <= |old(script)|
      ensures ActionDue(false) && Agreed() && Asked() && DataDue()
      ensures if blocked then substate == DATA_REST && sent
              else if old(sent) then
                && !sent && ((substate == DATA_ACTION && repcode == 350) || substate == SUB_ERROR)
                && |script| < |old(script)|
              else if request.restart.None? then substate == DATA_ACTION && !sent
              else substate == DATA_REST && sent
    {
      hide Count, PathCommands, ThePlan, ActionDue, Agreed, Asked, Faithful, DataDue, MayFollow, MayFail,
           Prepared, Prior, Earlier, Code, SaysAlready, Commands, Got, Confirmed;
      MayRestart();
      blocked := false;
      if !sent {
        if request.restart.None? {
          substate := DATA_ACTION;
          NothingToSkip();
        } else {
          SendCommand(Rest, request.restart.value);
          sent := true;
          AgreementStays();
          RestIsNoAction();
          DataAwaits();
        }
      } else {
        var status, _ := ReadControl();
        if status.WouldBlock? {
          DataUnchanged();
          return true;
        }
        substate := if status.Loaded? && repcode == 350 then DATA_ACTION else SUB_ERROR;
        sent := false;
        DataAfterReply(talk[|talk| - 1]);
      }
    }

    lemma NothingToSkip()
      requires substate == DATA_ACTION && !sent && MayFollow(request, talk, Transfer())
      ensures DataDue()
    {
      hide MayFollow;
    }

    lemma MayRestart()
      requires substate == DATA_REST && DataDue()
      ensures !sent ==> MayFollow(request, talk, Rest)
      ensures !sent && request.restart.Some? ==> MayCarry(request, given, Command(Rest, request.restart.value))
      ensures !sent && request.restart.None? ==> MayFollow(request, talk, Transfer())
    {
      hide Prepared;
    }

    /** A command of the transfer machine has just been sent. */
    lemma DataAwaits()
      requires sent
      requires substate == DATA_REST ==> request.restart.Some? && Awaits(talk, Rest)
      requires substate == DATA_ACTION ==> Awaits(talk, Transfer())
      requires substate == DATA_CWD ==> Awaits(talk, Cwd)
      requires substate == DATA_REST || substate == DATA_ACTION || substate == DATA_CWD
      ensures DataDue()
    {
      hide Awaits;
    }

    twostate lemma DataUnchanged()
      requires old(DataDue()) && talk == old(talk)
      requires unchanged(this`substate, this`sent, this`pasv, this`dataType, this`cwd)
      ensures DataDue()
    {
      hide MayFail, MayFollow, Prepared, Awaits, Confirmed, Linked, Got;
    }

    /** Where the replies lead. */
    twostate lemma DataAfterReply(turn: Turn)
      requires old(DataDue()) && old(sent) && !sent && unchanged(this`pasv, this`dataType, this`cwd)
      requires !turn.Said? && talk == old(talk) + [turn] && Prior(talk) == old(Prior(talk))
      requires turn.Heard? ==> Code(talk) == Some(turn.code)
      requires var rest, action := old(substate) == DATA_REST, old(substate) == DATA_ACTION;
               var cd := old(substate) == DATA_CWD;
               if turn.Lost? then substate == SUB_ERROR && (rest || action || cd)
               else if rest then substate == if turn.code == 350 then DATA_ACTION else SUB_ERROR
               else if cd then cwd && substate == if turn.code / 100 == 2 then DATA_SEGMENT else SUB_ERROR
               else
                 && action
                 && if Confirms(turn.code) then substate == DATA_STREAM || substate == DATA_ACCEPT
                    else if turn.code / 100 == 5 && !cwd then substate == DATA_SEGMENT
                    else substate == SUB_ERROR && (turn.code / 100 == 5 ==> |PathCommands(Commands(talk))| > 1)
      ensures DataDue()
    {
      hide Prior, Code, MayFail, Prepared, PathCommands, Commands, Got, Confirmed;
      if turn.Lost? {
        LossFails(request, talk);
      } else {
        TransferReplies(request, talk);
        if old(substate) == DATA_ACTION && Confirms(turn.code) {
          ConfirmedNow(old(talk), Transfer(), turn);
        }
      }
    }

    /** RETR, LIST, NLST or STOR. */
    method Action() returns (blocked: bool)
      requires substate == DATA_ACTION && ActionDue(sent) && Agreed() && Asked() && DataDue() && Faithful()
      requires offset <= |request.file| && Typing()
      modifies this`script, this`repcode, this`reply, this`alreadyLoggedIn, this`saidAlready, this`wire,
               this`talk, this`substate, this`sent
      ensures Faithful() && |script| <= |old(script)|
      ensures Agreed() && Asked() && DataDue()
      ensures if blocked || !old(sent) then substate == DATA_ACTION && sent && ActionDue(true)
              else
                && !sent && |script| < |old(script)|
                && ((substate == SUB_ERROR && AllSent())
                    || (substate == DATA_SEGMENT && SegmentDue() && !cwd && repcode / 100 == 5)
                    || (substate == (if pasv then DATA_STREAM else DATA_ACCEPT) && AllSent()
                        && (repcode == 125 || repcode == 150 || repcode == 225)))
    {
      blocked := false;
      if !sent {
        SendAction();
      } else {
        blocked := ActionReply();
      }
    }

    method SendAction()
      requires substate == DATA_ACTION && !sent && ActionDue(false) && Agreed() && Asked() && DataDue() && Faithful()
      requires offset <= |request.file| && Typing()
      modifies this`wire, this`talk, this`sent
      ensures sent && ActionDue(true) && Agreed() && Asked() && DataDue() && Faithful()
      ensures wire == old(wire) + [Command(Transfer(), request.file[offset..])]
    {
      hide Count, PathCommands, ThePlan, ActionDue, Agreed, Asked, Faithful, DataDue, Typing, MayFollow, MayCarry;
      MayAct();
      SendCommand(if request.verb.Put? then Stor else if dataType.LongList? then List
                  else if dataType.NameList? then Nlst else Retr,
                  request.file[offset..]);
      sent := true;
      AgreementStays();
      ActionIsSent();
      DataAwaits();
    }

    method ActionReply() returns (blocked: bool)
      requires substate == DATA_ACTION && sent && ActionDue(true) && Agreed() && Asked() && DataDue() && Faithful()
      modifies this`script, this`repcode, this`reply, this`alreadyLoggedIn, this`saidAlready, this`talk,
               this`substate, this`sent
      ensures Faithful() && |script| <= |old(script)|
      ensures Agreed() && Asked() && DataDue()
      ensures if blocked then substate == DATA_ACTION && sent && ActionDue(true)
              else
                && !sent && |script| < |old(script)|
                && ((substate == SUB_ERROR && AllSent())
                    || (substate == DATA_SEGMENT && SegmentDue() && !cwd && repcode / 100 == 5)
                    || (substate == (if pasv then DATA_STREAM else DATA_ACCEPT) && AllSent()
                        && (repcode == 125 || repcode == 150 || repcode == 225)))
    {
      hide Count, PathCommands, ThePlan, ActionDue, SegmentDue, AllSent, Agreed, Asked, Faithful, DataDue,
           MayFollow, MayFail, Prepared, Prior, Earlier, Code, SaysAlready, Commands, Got, Confirmed;
      var status, _ := ReadControl();
      if status.WouldBlock? {
        DataUnchanged();
        return true;
      }
      blocked := false;
      AfterAction();
      if cwd {
        SecondTry();
      }
      if status.Loaded? && (repcode == 125 || repcode == 150 || repcode == 225) {
        substate := if pasv then DATA_STREAM else DATA_ACCEPT;
      } else if status.Loaded? && repcode / 100 == 5 && !cwd {
        substate := DATA_SEGMENT;
      } else {
        substate := SUB_ERROR;
      }
      sent := false;
      DataAfterReply(talk[|talk| - 1]);
    }

    lemma MayAct()
      requires substate == DATA_ACTION && DataDue() && Typing() && !sent
      ensures MayFollow(request, talk, Transfer())
      ensures forall arg :: MayCarry(request, given, Command(Transfer(), arg))
    {
      hide MayFollow;
    }

    lemma SecondTry()
      requires ActionDue(true) && Faithful() && cwd
      ensures |PathCommands(Commands(talk))| > 1
    {
      hide PathCommands, Commands, Proper;
    }

    /** CWD to the next directory. */
    method ChangeDirectory(segment: Option<string>) returns (blocked: bool)
      requires substate == DATA_CWD && Agreed() && Asked() && DataDue() && Faithful()
      requires if sent then cwd && SegmentDue() else DirectoryDue(segment)
      modifies this`script, this`repcode, this`reply, this`alreadyLoggedIn, this`saidAlready, this`wire,
               this`talk, this`substate, this`sent, this`cwd
      ensures Faithful() && |script| <= |old(script)|
      ensures Agreed() && Asked() && SegmentDue() && cwd && DataDue()
      ensures if blocked || !old(sent) then substate == DATA_CWD && sent && repcode == old(repcode)
              else |script| < |old(script)| && !sent
                   && ((substate == DATA_SEGMENT && repcode / 100 == 2)
                       || (substate == SUB_ERROR && (repcode / 100 == 2 ==> repcode == old(repcode))))
    {
      hide Count, PathCommands, ThePlan, SegmentDue, DirectoryDue, Agreed, Asked, Faithful, DataDue, MayFollow,
           MayFail, Prepared, Prior, Earlier, Code, SaysAlready, Commands, Got, Confirmed;
      blocked := false;
      if !sent {
        MayChange();
        SegmentIsThere(segment);
        SendCommand(Cwd, segment.value);
        cwd := true;
        sent := true;
        AgreementStays();
        DirectoryIsSent(segment);
        DataAwaits();
      } else {
        var status, _ := ReadControl();
        if status.WouldBlock? {
          DataUnchanged();
          return true;
        }
        substate := if status.Loaded? && repcode / 100 == 2 then DATA_SEGMENT else SUB_ERROR;
        sent := false;
        DataAfterReply(talk[|talk| - 1]);
      }
    }

    lemma MayChange()
      requires substate == DATA_CWD && DataDue() && !sent
      ensures MayFollow(request, talk, Cwd)
    {}

    /** Path commands and REST have nothing to do with the data connection or the server type. */
    twostate lemma AgreementStays()
      requires old(Agreed() && Asked()) && unchanged(this`setups, this`pasv, this`server, this`dataType)
      requires forall v | !NamesPath(v) && v != Rest :: Count(wire, v) == old(Count(wire, v))
      ensures Agreed() && Asked()
    {
      hide Count;
    }

    twostate lemma RestIsNoAction()
      requires old(ActionDue(false)) && unchanged(this`cwd, this`offset, this`dataType, this`server, this`uid)
      requires PathCommands(wire) == old(PathCommands(wire))
      ensures ActionDue(false)
    {
      hide PathCommands, Plan;
    }

    twostate lemma ActionIsSent()
      requires old(ActionDue(false)) && unchanged(this`cwd, this`offset, this`dataType, this`server, this`uid)
      requires PathCommands(wire) == old(PathCommands(wire)) + [Command(Transfer(), request.file[offset..])]
      ensures ActionDue(true)
    {
      hide PathCommands, Plan;
    }

    lemma AfterAction()
      requires ActionDue(true)
      ensures AllSent() && (!cwd ==> SegmentDue()) && PathCommands(wire) <= ThePlan()
    {
      PlanParts();
    }

    lemma BeforeAction()
      requires ActionDue(false)
      ensures offset <= |request.file| && PathCommands(wire) <= ThePlan() && !WalksOn()
    {}

    lemma ActionInBounds()
      requires ActionDue(sent)
      ensures offset <= |request.file|
    {}

    lemma SegmentIsThere(segment: Option<string>)
      requires DirectoryDue(segment)
      ensures segment.Some?
    {}

    twostate lemma DirectoryIsSent(segment: Option<string>)
      requires old(DirectoryDue(segment)) && unchanged(this`offset, this`dataType, this`server, this`uid) && cwd
      requires PathCommands(wire) == old(PathCommands(wire)) + [Command(Cwd, segment.value)]
      ensures SegmentDue()
    {
      hide PathCommands, Plan, Walk;
    }

    lemma BeforeSegment()
      requires SegmentDue()
      ensures PathCommands(wire) <= ThePlan()
    {}

    /** The whole file was asked for, or the walk was completed, and the transfer is confirmed. */
    ghost predicate Transferred()
      reads this`wire, this`setups, this`overrun, this`dataType, this`server, this`uid, this`complete,
            this`dataDone, this`putDone, this`repcode, this`inquiry
    {
      && Limits() && complete == 3 && Completion()
      && AllSent()
    }

    lemma PlanParts()
      ensures ThePlan() == Whole() + [Command(Cwd, Root())]
                         + if request.file == "" then [] else Walk(Transfer(), request.file, 1)
    {}

    lemma GivenUp(segment: Option<string>)
      requires DataState(segment) && Lists() && ServerSettled() && substate == SUB_ERROR
      ensures Limits() && !sent
    {
      hide Count, PathCommands, Plan, Walk;
    }

    lemma AllDone(segment: Option<string>)
      requires DataState(segment) && Lists() && ServerSettled() && substate == SUB_SUCCESS
      ensures Transferred() && !sent
    {
      PlanParts();
      hide Count, PathCommands, Plan, Walk;
    }

    lemma RootIsNext()
      requires SegmentDue() && offset == 0
      ensures PathCommands(wire) + [Command(Cwd, Root())]
              + (if request.file == "" then [] else Walk(Transfer(), request.file, 1)) == ThePlan()
    {}

    lemma DirectoryIsNext(end: nat)
      requires SegmentDue() && 0 < offset <= |request.file|
      requires end == NextSlash(request.file, offset) < |request.file|
      ensures PathCommands(wire) + [Command(Cwd, request.file[offset..end])] + Walk(Transfer(), request.file, end + 1)
           == ThePlan()
    {
      hide PathCommands, Walk, NextSlash, Transfer, ThePlan;
      WalkStep(Transfer(), request.file, offset);
      Regroup(PathCommands(wire), Command(Cwd, request.file[offset..end]), Walk(Transfer(), request.file, end + 1));
    }

    lemma ActionIsNext()
      requires SegmentDue() && 0 < offset <= |request.file| && NextSlash(request.file, offset) == |request.file|
      ensures ActionDue(false)
    {}

    /** Move on to the next directory of the walk. */
    method NextSegment() returns (segment: Option<string>)
      requires substate == DATA_SEGMENT && !sent && SegmentDue() && DataDue()
      modifies this`substate, this`offset, this`overrun
      ensures DataDue()
      ensures if old(offset) > |request.file| then
                overrun && substate == SUB_ERROR && PathCommands(wire) == ThePlan() && request.file == ""
              else
                overrun == old(overrun)
                && if substate == DATA_CWD then DirectoryDue(segment) && (old(!cwd) || request.file != "")
                   else substate == DATA_REST && ActionDue(false)
    {
      hide PathCommands, Walk, NextSlash, Transfer, ThePlan, ActionDue, DataDue, MayFollow, MayFail, Prepared;
      segment := None;
      SegmentLeads();
      if offset == 0 {
        RootIsNext();
        segment := Some(if server.Vms? then "[" + uid + "]" else "/");
        offset := 1;
        substate := DATA_CWD;
      } else if offset > |request.file| {
        overrun := true;
        substate := SUB_ERROR;
      } else {
        var end := NextSlash(request.file, offset);
        if end < |request.file| {
          DirectoryIsNext(end);
          segment := Some(request.file[offset..end]);
          offset := end + 1;
          substate := DATA_CWD;
        } else {
          ActionIsNext();
          substate := DATA_REST;
        }
      }
      SegmentFollowed();
    }

    lemma SegmentLeads()
      requires substate == DATA_SEGMENT && DataDue()
      ensures MayFollow(request, talk, Cwd)
      ensures cwd ==> Prepared(request, talk) && (request.file == "" ==> MayFail(request, talk))
    {
      hide MayFollow, Prior, Code, Connected, Inquired;
    }

    lemma SegmentFollowed()
      requires !sent
      requires if substate == DATA_CWD then MayFollow(request, talk, Cwd)
               else if substate == DATA_REST then Prepared(request, talk)
               else substate == SUB_ERROR && MayFail(request, talk)
      ensures DataDue()
    {
      hide MayFollow, MayFail, Prepared;
    }

    /** Transfer the body; active tells which of the two connections is looked at. */
    method Body(wasActive: bool) returns (blocked: bool, active: bool)
      requires substate == DATA_BODY && Completion() && Confirmed(talk) && Faithful()
      modifies this`script, this`repcode, this`reply, this`alreadyLoggedIn, this`saidAlready, this`talk,
               this`substate, this`complete, this`dataDone, this`putDone
      ensures Faithful() && |script| <= |old(script)| && (!blocked ==> |script| < |old(script)|)
      ensures Confirmed(talk)
      ensures substate == DATA_BODY || substate == SUB_ERROR || (substate == SUB_SUCCESS && complete == 3)
      ensures substate != SUB_ERROR ==> Completion()
    {
      hide Faithful, Confirmed, Prior, Earlier, Code, SaysAlready;
      active := wasActive;
      blocked := false;
      if active {
        var a := Ask();
        if request.verb.Put? {
          var status := if !request.hasCallback && a.status.Ok? then Loaded else a.status;
          if status.WouldBlock? || status.Ok? {
            return true, active;
          }
          if status.Loaded? {
            putDone := true;
            complete := complete | 3;
            substate := SUB_SUCCESS;
          } else {
            substate := SUB_ERROR;
          }
        } else {
          if a.status.WouldBlock? {
            return true, active;
          }
          if a.status.Loaded? || a.status.Closed? || a.status.Ok? {
            dataDone := true;
            complete := complete | 1;
            if complete >= 3 {
              substate := SUB_SUCCESS;
            } else {
              active := false;
            }
          } else {
            substate := SUB_ERROR;
          }
        }
      } else {
        ghost var before := talk;
        var status, _ := ReadControl();
        if status.WouldBlock? {
          assert talk == before;
          return true, active;
        }
        StillConfirmed(before, talk[|talk| - 1]);
        if (status.Loaded? || status.Closed?) && repcode / 100 == 2 {
          complete := complete | 2;
          if complete >= 3 {
            substate := SUB_SUCCESS;
          } else {
            active := true;
          }
        } else {
          substate := SUB_ERROR;
        }
      }
    }

    // ----- the event machine

    /** Start a nested machine other than the one that sets up the data connection. */
    method Enter(machine: State)
      requires CleanStarts() && substate == 0 && !sent && !machine.NeedDcon?
      modifies this`state, this`starts
      ensures CleanStarts() && state == machine
    {
      state := machine;
      ghost var s := Start(machine, substate, sent);
      assert (starts + [s])[..|starts|] == starts;
      starts := starts + [s];
    }

    /** Start the machine that sets up the data connection. */
    method EnterSetup()
      requires CleanStarts() && substate == 0 && !sent
      modifies this`state, this`starts, this`setups
      ensures CleanStarts() && state == NeedDcon && setups == old(setups) + 1
    {
      state := NeedDcon;
      ghost var s := Start(NeedDcon, substate, sent);
      assert (starts + [s])[..|starts|] == starts;
      starts := starts + [s];
      setups := setups + 1;
    }

    /** The outcome of the state machine: it waits, has succeeded or has failed. */
    ghost predicate Answers()
      reads this`state, this`outcome
    {
      outcome == if state.Success? then Some(Loaded) else if state.Failure? then Some(Error) else None
    }

    /** One call of FTPEvent. */
    method FTPEvent(event: Event)
      requires Valid() && Faithful() && outcome.None?
      modifies this
      ensures Valid() && Faithful() && |script| <= |old(script)|
      ensures event.Close? ==>
                && unchanged(this`state, this`wire, this`complete)
                && outcome == Some(if !event.dataSocket && complete < 1 then Interrupted else Loaded)
      ensures event.Timeout? ==>
                && unchanged(this`state, this`wire, this`complete)
                && outcome == if !event.dataSocket && complete & 1 == 0 && event.receiving then None
                              else Some(TimedOut)
      ensures event.Ready? ==> Answers()
    {
      hide Valid, Faithful;
      match event
      case Close(dataSocket) =>
        outcome := Some(if !dataSocket && complete < 1 then Interrupted else Loaded);
      case Timeout(dataSocket, receiving) =>
        if !(!dataSocket && complete & 1 == 0 && receiving) {
          outcome := Some(TimedOut);
        }
      case Ready(dataSocket) =>
        Advance(dataSocket);
    }

    method Advance(dataSocket: bool)
      requires Valid() && Faithful() && outcome.None?
      modifies this
      ensures Valid() && Faithful() && |script| <= |old(script)|
      ensures Answers()
    {
      hide Valid, Faithful;
      while true
        invariant Valid() && Faithful() && outcome.None? && |script| <= |old(script)|
        decreases |script|, StateRank(state)
      {
        var blocked := false;
        match state {
          case Begin => Prepare();
          case NeedCcon => blocked := Connect();
          case NeedLogin => blocked := LogIn();
          case NeedDcon => blocked := SetUp();
          case NeedServer => blocked := Inquire();
          case NeedData => blocked := Retrieve(dataSocket);
          case Success =>
            outcome := Some(Loaded);
            return;
          case Failure =>
            outcome := Some(Error);
            return;
        }
        if blocked {
          return;
        }
      }
    }

    lemma LoginIsOver()
      requires OnlyLogin()
      ensures Limits()
    {
      hide Count, PathCommands, Plan, Lists, ServerSettled;
    }

    lemma SetupMayBegin()
      requires Untouched() && !pasv && substate == 0 && !sent && setups == 1 && LoggedIn(talk)
      requires Count(wire, Type) == Count(wire, Pasv) == Count(wire, Port) == Count(wire, Syst) == Count(wire, Pwd) == 0
      ensures SetupState()
    {
      hide Count, PathCommands, LoggedIn;
    }

    method LogIn() returns (blocked: bool)
      requires Valid() && Faithful() && state.NeedLogin?
      modifies this
      ensures Valid() && Faithful() && outcome == old(outcome) && |script| <= |old(script)|
      ensures !blocked ==> (state.NeedDcon? && LoggedIn(talk)) || state.Failure?
      ensures blocked ==> state == old(state)
    {
      hide Count, PathCommands, Plan, CleanStarts, Faithful, LoggedIn, MayFail, MayList, ServerSettled,
           LoginState, Limits, SetupState;
      var status := Login();
      if status.WouldBlock? {
        return true;
      }
      LoginIsOver();
      if status.Ok? {
        EnterSetup();
        SetupMayBegin();
      } else {
        state := Failure;
      }
      blocked := false;
    }

    method SetUp() returns (blocked: bool)
      requires Valid() && Faithful() && state.NeedDcon?
      modifies this
      ensures Valid() && Faithful() && outcome == old(outcome) && |script| <= |old(script)|
      ensures !blocked ==> state.Failure? || state == if dataType.NameList? then NeedServer else NeedData
      ensures blocked ==> state == old(state)
    {
      hide Untouched, Agreed, Asked, Limits, InfoState, DataState, LoginState, Transferred, CleanStarts,
           Faithful, SetupState, ServerSettled, Linked, Connected, MayFail;
      var status := DataConnection();
      if status.WouldBlock? {
        return true;
      }
      if status.Ok? {
        MayProceed();
        Enter(if dataType.NameList? then NeedServer else NeedData);
      } else {
        state := Failure;
      }
      blocked := false;
    }

    method Inquire() returns (blocked: bool)
      requires Valid() && Faithful() && state.NeedServer?
      modifies this
      ensures Valid() && Faithful() && outcome == old(outcome) && |script| <= |old(script)|
      ensures !blocked ==> state.NeedData?
      ensures blocked ==> state == old(state)
    {
      hide Untouched, Agreed, Asked, Limits, InfoState, DataState, LoginState, SetupState, Transferred,
           CleanStarts, Faithful, ServerSettled, Linked, Lists;
      var status := ServerInfo();
      if status.WouldBlock? {
        return true;
      }
      MayProceed();
      Enter(NeedData);
      blocked := false;
    }

    /** The swap starts the data connection machine a second time. */
    method SetUpAgain()
      requires CleanStarts() && substate == 0 && !sent && Untouched() && Agreed() && Asked() && pasv
      requires Linked() && Lists() && ServerSettled()
      modifies this`state, this`starts, this`setups
      ensures Valid() && state.NeedDcon?
    {
      hide Count, PathCommands, Plan, Started, MayFollow;
      EnterSetup();
    }

    method Retrieve(dataSocket: bool) returns (blocked: bool)
      requires Valid() && Faithful() && state.NeedData?
      modifies this
      ensures Valid() && Faithful() && outcome == old(outcome) && |script| <= |old(script)|
      ensures !blocked ==> state.Success? || state.Failure? || (state.NeedDcon? && |script| < |old(script)|)
      ensures blocked ==> state == old(state)
    {
      hide LoginState, InfoState, SetupState, DataState, Untouched, Agreed, Asked, Limits, Transferred,
           CleanStarts, Faithful, ServerSettled, Linked, Lists, MayList, Confirmed, MayFail;
      var status := GetData(dataSocket);
      if status.WouldBlock? {
        return true;
      }
      if status.Loaded? {
        state := Success;
      } else if status.Ok? {
        SetUpAgain();
      } else {
        state := Failure;
      }
      blocked := false;
    }

    method Prepare()
      requires Valid() && state.Begin?
      modifies this`state, this`dataType
      ensures Valid() && state == if request.verb.OtherMethod? then Failure else NeedCcon
      ensures state.NeedCcon? ==> dataType == StartType(request.mode, request.urlType)
    {
      hide Count, PathCommands, Plan;
      FreshLimits();
      if request.verb.OtherMethod? {
        state := Failure;
      } else {
        dataType := StartType(request.mode, request.urlType);
        state := NeedCcon;
      }
    }

    lemma MayConnect()
      requires Valid() && state.NeedCcon?
      ensures CleanStarts() && Limits() && OnlyLogin() && MayFail(request, talk)
      ensures Typing() && !dataType.LongList?
      ensures substate == 0 && !sent && talk == [] && inquiry == [] && server.Unsure? && !reset
    {
      hide Count, PathCommands, Plan, Limits, OnlyLogin, CleanStarts;
      FreshLimits();
    }

    lemma HasFailed()
      requires state.Failure? && CleanStarts() && Limits() && MayFail(request, talk)
      ensures Valid()
    {}

    lemma AtLogin()
      requires state.NeedLogin? && CleanStarts() && LoginState() && MayList() && ServerSettled()
      ensures Valid()
    {}

    /** The control connection. */
    method Connect() returns (blocked: bool)
      requires Valid() && Faithful() && state.NeedCcon?
      modifies this`state, this`script, this`server, this`reset, this`starts, this`setups
      ensures Valid() && Faithful() && |script| <= |old(script)|
      ensures if blocked then state.NeedCcon? else state.NeedLogin? || state.Failure?
      ensures state.NeedLogin? ==> !request.foreignClass
      ensures if state.NeedLogin? && request.cached.Some? then server == request.cached.value && reset
              else server == old(server) && reset == old(reset)
    {
      hide Valid, OnlyLogin, LoginState, Limits, CleanStarts, Faithful, MayFail, Typing, MayList, ServerSettled;
      MayConnect();
      var a := Ask();
      blocked := false;
      if a.status.WouldBlock? || a.status.Pending? {
        return true;
      }
      if !a.status.Ok? || request.foreignClass {
        state := Failure;
        HasFailed();
        return;
      }
      if request.cached.Some? {
        server := request.cached.value;
        reset := true;
      }
      LoginMayBegin();
      Enter(NeedLogin);
      AtLogin();
    }
  }

  /** How a session ends: it is interrupted by a closed control connection before anything was
      transferred, times out, fails, or succeeds, unless a closed connection is taken for success. */
  ghost predicate Ends(outcome: Option<Status>, state: State, complete: bv2, events: seq<Event>) {
    match outcome
    case None => !state.Success? && !state.Failure?
    case Some(Error) => state.Failure?
    case Some(Interrupted) => complete == 0 && Close(false) in events
    case Some(TimedOut) => exists e :: e in events && e.Timeout?
    case Some(Loaded) => state.Success? || exists e :: e in events && e.Close?
    case _ => false
  }

  lemma EndsWith(event: Event, before: State, bits: bv2, outcome: Option<Status>, state: State, complete: bv2,
                 events: seq<Event>)
    requires event in events
    requires event.Close? ==>
               state == before && complete == bits
               && outcome == Some(if !event.dataSocket && bits < 1 then Interrupted else Loaded)
    requires event.Timeout? ==>
               state == before && (outcome.None? || outcome == Some(TimedOut))
               && !before.Success? && !before.Failure?
    requires event.Ready? ==>
               outcome == if state.Success? then Some(Loaded) else if state.Failure? then Some(Error) else None
    ensures Ends(outcome, state, complete, events)
  {}

  /** A whole session: the outside world answers as script says and wakes the machine up with
      events, in any order. */
  method Run(request: Request, uid: string, passwd: string, script: seq<Answer>, events: seq<Event>)
    returns (wire: seq<Command>, outcome: Option<Status>, verb: Verb, root: string, server: Server, state: State,
             complete: bv2, repcode: nat, ghost starts: seq<Start>, ghost dataDone: bool, ghost putDone: bool,
             ghost overrun: bool, ghost talk: seq<Turn>, ghost inquiry: seq<Turn>)
    // the conversation: every command may follow what was said before it, every failure has a reason
    ensures Commands(talk) == wire && Proper(request, Given(uid, passwd, script), talk)
    ensures state.Failure? ==> MayFail(request, talk)
    ensures state.Success? ==> Confirmed(talk)
    // what the commands carry
    ensures forall c | c in wire && c.verb.User? :: c.arg == uid || exists a | a in script :: c.arg == a.text
    ensures forall c | c in wire && c.verb.Pass? :: c.arg == passwd || exists a | a in script :: c.arg == a.secret
    ensures forall c | c in wire && c.verb.Acct? :: exists a | a in script :: c.arg == a.text
    ensures forall c | c in wire && c.verb.Type? ::
              && (request.mode.BinaryMode? ==> c.arg == "I")
              && (request.mode.AsciiMode? ==> c.arg == "A")
              && (request.mode.DefaultMode? ==>
                    c.arg == if request.urlType == 'a' || request.urlType == 'A' then "A" else "I")
              && !Listing(request)
    // how a directory is listed, and where the server type is from
    ensures PathCommands(wire) != [] && !request.verb.Put? ==>
              verb == if !Listing(request) then Retr
                      else if server.Machten? || server.Unix? || server.Vms? || server.PeterLewis? || server.WinNt?
                        then List else Nlst
    ensures PathCommands(wire) != [] ==>
              && inquiry <= talk
              && if inquiry != [] then Settled(inquiry, server)
                 else server == if request.cached.Some? then request.cached.value else Unsure
    // what is sent at most once, and how often the machines are started
    ensures Count(wire, Type) <= 1 && Count(wire, Pasv) <= 1 && Count(wire, Port) <= 1
    ensures Count(wire, Syst) <= 1 && Count(wire, Pwd) <= 1
    ensures forall s | s in starts :: s.substate == 0 && !s.sent
    ensures Started(starts, NeedDcon) <= 2
    // the commands that name a path
    ensures if request.verb.Put? then verb == Stor else verb == Retr || verb == List || verb == Nlst
    ensures if server.Vms? then
              exists name :: root == "[" + name + "]"
                             && (name == "" || name == uid || exists a | a in script :: name == a.text)
            else root == "/"
    ensures PathCommands(wire) <= Plan(verb, root, request.file)
    ensures request.file != "" && request.file[0] == '/' ==> Count(wire, Cwd) <= Slashes(request.file)
    ensures overrun <==> request.file == "" && |PathCommands(wire)| == 2 && repcode / 100 == 2
    // how it ends
    ensures Ends(outcome, state, complete, events)
    ensures state.Success? ==>
              && complete == 3
              && (if request.verb.Put? then putDone || (dataDone && repcode / 100 == 2)
                  else dataDone && repcode / 100 == 2)
              && (PathCommands(wire) == [Command(verb, request.file)]
                  || (request.file != "" && PathCommands(wire) == Plan(verb, root, request.file)))
    ensures state.Success? && |PathCommands(wire)| > 1 && !server.Vms? ==>
              && ComponentWise(PathCommands(wire)[2..], verb)
              && ("/" + Rejoined(PathCommands(wire)[2..]) == request.file <==> request.file[0] == '/')
  {
    hide Count, PathCommands, Plan, Started, ComponentWise, Rejoined, Slashes, MayFollow, MayFail, Confirmed,
         Proper, Commands, MayCarry, Settled;
    var s := new Session(request, uid, passwd, script);
    var i := 0;
    while i < |events| && s.outcome.None?
      invariant i <= |events| && s.Valid() && s.Faithful()
      invariant s.request == request && s.given == Given(uid, passwd, script)
      invariant Ends(s.outcome, s.state, s.complete, events)
    {
      ghost var before, bits := s.state, s.complete;
      s.FTPEvent(events[i]);
      EndsWith(events[i], before, bits, s.outcome, s.state, s.complete, events);
      i := i + 1;
    }
    s.ValidKeepsLimits();
    wire, outcome, verb, root, server, state := s.wire, s.outcome, s.Transfer(), s.Root(), s.server, s.state;
    complete, repcode := s.complete, s.repcode;
    starts, dataDone, putDone, overrun := s.starts, s.dataDone, s.putDone, s.overrun;
    talk, inquiry := s.talk, s.inquiry;
    CarriedByWire(request, s.given, talk);
    if request.file != "" {
      FallbackSpellsPath(verb, request.file);
      if request.file[0] == '/' {
        OneCwdPerSlash(wire, verb, root, request.file);
      }
    }
  }
}
