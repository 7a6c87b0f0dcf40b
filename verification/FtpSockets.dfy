/**
 Which data and listening sockets an FTP session owns, over every sequence of commands and
 every outcome of the socket calls. A descriptor stands for one opening of a socket: the k-th
 socket a session opens is number k. `drops[k]` counts how often the session gave it up with
 close_socket and `closes[k]` how often it was closed, so that a second close shows even where
 the operating system would have reused the number.
 */
module FtpSockets {

  datatype Bind = Bound | InUse | Failed

  /** What the calls of an active data connection return. */
  datatype Dial = Dial(creates: bool, setsOption: bool, binds: nat -> Bind, connects: bool)

  datatype StoreEnd = NoMemory | TooLong | HookFailed | HookDone | NotCreated | WriteError | Stored

  datatype Command =
    | Retrieve(allowed: bool, opens: bool, isDirectory: bool, dial: Dial)
    | Store(allowed: bool, dial: Dial, end: StoreEnd)
    | List(allowed: bool, dial: Dial)
    | Port
    | Pasv(creates: bool, named: bool, accepts: bool)
    | Other

  const TRIES: nat := 10

  /** The bind loop goes on while the address is in use, at most nine times. */
  ghost predicate BindsBy(binds: nat -> Bind) {
    exists k :: 1 <= k < TRIES && binds(k).Bound? && forall j :: 1 <= j < k ==> binds(j).InUse?
  }

  method BindLoop(binds: nat -> Bind) returns (bound: bool)
    ensures bound <==> BindsBy(binds)
  {
    var tries := 1;
    while tries < TRIES
      invariant 1 <= tries <= TRIES + 1
      invariant tries <= TRIES ==> forall j :: 1 <= j < tries ==> binds(j).InUse?
      invariant tries > TRIES ==> exists k :: 1 <= k < TRIES && binds(k).Failed? && forall j :: 1 <= j < k ==> binds(j).InUse?
    {
      var b := binds(tries);
      if b.Bound? {
        break;
      }
      if !b.InUse? {
        tries := TRIES;
      }
      tries := tries + 1;
    }
    bound := tries < TRIES;
  }

  /** Eight attempts that find the address in use may be followed by a ninth that binds; there is
      no tenth, and any other failure ends the attempts. */
  lemma BindAttempts(binds: nat -> Bind)
    ensures (forall k :: 1 <= k <= 8 ==> binds(k) == InUse) && binds(9) == Bound ==> BindsBy(binds)
    ensures (forall k :: 1 <= k <= 9 ==> binds(k) != Bound) ==> !BindsBy(binds)
    ensures binds(1) == Failed ==> !BindsBy(binds)
  {
  }

  /** Sockets are given up at most once, and those not given up are `held`. */
  predicate Open(drops: seq<nat>, held: set<int>) {
    && (forall i :: 0 <= i < |drops| ==> drops[i] <= 1 && (drops[i] == 0 <==> i in held))
    && forall s :: s in held ==> 0 <= s < |drops|
  }

  /** The calls of close on a socket: the first succeeds, or it fails and the second one, after
      a shutdown, succeeds, or both fail. */
  datatype Closing = AtOnce | AfterShutdown | Never

  /** A socket is closed once if it was given up and the calls allow it. */
  predicate ClosedAsDropped(drops: seq<nat>, closes: seq<nat>, closing: nat -> Closing) {
    |closes| == |drops| &&
    forall i :: 0 <= i < |drops| ==> closes[i] == if closing(i).Never? then 0 else drops[i]
  }

  /** A field of the session that may hold a socket. */
  function Of(s: int): set<int> {
    if s < 0 then {} else {s}
  }

  /** The command gets as far as asking for a data connection. */
  predicate Transfers(command: Command) {
    match command
    case Retrieve(allowed, opens, isDirectory, _) => allowed && opens && !isDirectory
    case Store(allowed, _, _) => allowed
    case List(allowed, _) => allowed
    case _ => false
  }

  /** Whether a passive connection waits after the command, given whether one waits before. */
  predicate Waits(waiting: bool, command: Command) {
    match command
    case Port => false
    case Pasv(creates, named, accepts) => creates && named && accepts
    case _ => waiting && !Transfers(command)
  }

  /** How many sockets the command opens. */
  function Opens(waiting: bool, command: Command): nat {
    match command
    case Pasv(creates, named, accepts) => if !creates then 0 else if named && accepts then 2 else 1
    case _ => if Transfers(command) && !waiting && command.dial.creates then 1 else 0
  }

  function WaitsAfter(commands: seq<Command>): bool {
    commands != [] && Waits(WaitsAfter(commands[..|commands| - 1]), commands[|commands| - 1])
  }

  function OpensIn(commands: seq<Command>): nat {
    if commands == [] then 0
    else
      var before := commands[..|commands| - 1];
      OpensIn(before) + Opens(WaitsAfter(before), commands[|commands| - 1])
  }

  class Session {
    var dataSocket: int
    var pasvSocket: int
    var drops: seq<nat>
    var closes: seq<nat>
    const closing: nat -> Closing

    constructor (closing: nat -> Closing)
      ensures drops == [] && closes == [] && dataSocket == -1 && pasvSocket == -1 && this.closing == closing
    {
      this.closing := closing;
      drops, closes, dataSocket, pasvSocket := [], [], -1, -1;
    }

    ghost predicate Accounted()
      reads this
    {
      ClosedAsDropped(drops, closes, closing)
    }

    /** Between commands: at most a passive connection waits for its transfer. */
    ghost predicate Quiet()
      reads this
    {
      Accounted() && dataSocket < 0 && Open(drops, Of(pasvSocket))
    }

    /** What a command leaves: the passive connection that waits, and the sockets opened. */
    ghost predicate Follows(waiting: bool, count: nat, command: Command)
      reads this
    {
      (pasvSocket >= 0) == Waits(waiting, command) && |drops| == count + Opens(waiting, command)
    }

    method Socket(creates: bool) returns (s: int)
      requires Accounted()
      modifies this`drops, this`closes
      ensures Accounted()
      ensures creates ==> s == |old(drops)| && drops == old(drops) + [0]
      ensures !creates ==> s == -1 && drops == old(drops)
    {
      if creates {
        s := |drops|;
        drops, closes := drops + [0], closes + [0];
      } else {
        s := -1;
      }
    }

    method CloseSocket(s: int) returns (ok: bool)
      requires Accounted() && s < |drops| && (s >= 0 ==> drops[s] == 0)
      modifies this`drops, this`closes
      ensures Accounted() && (ok <==> s < 0 || !closing(s).Never?)
      ensures drops == if s < 0 then old(drops) else old(drops)[s := old(drops)[s] + 1]
    {
      ok := true;
      if s >= 0 {
        drops := drops[s := drops[s] + 1];
        if closing(s) == AtOnce {
          closes := closes[s := closes[s] + 1];
        } else if closing(s) == AfterShutdown {
          closes := closes[s := closes[s] + 1];
        } else {
          ok := false;
        }
      }
    }

    /** The data connection: the accepted passive one, or one that is made now. */
    method DataSocket(dial: Dial) returns (s: int)
      requires Quiet()
      modifies this
      ensures Accounted() && dataSocket == s && pasvSocket == old(pasvSocket) && Open(drops, Of(s))
      ensures old(pasvSocket) >= 0 ==> s == old(pasvSocket)
      ensures old(pasvSocket) < 0 ==>
                (s >= 0 <==> dial.creates && dial.setsOption && BindsBy(dial.binds) && dial.connects)
      ensures |drops| == |old(drops)| + if old(pasvSocket) < 0 && dial.creates then 1 else 0
    {
      s := pasvSocket;
      if s < 0 {
        s := Socket(dial.creates);
        if s >= 0 {
          if !dial.setsOption {
            var _ := CloseSocket(s);
            s := -1;
          } else {
            var bound := BindLoop(dial.binds);
            if !bound || !dial.connects {
              var _ := CloseSocket(s);
              s := -1;
            }
          }
        }
      }
      dataSocket := s;
    }

    /** Whatever is open is closed; when both fields hold a socket, they hold the same. */
    method CloseDataSocket()
      requires Accounted() && Open(drops, Of(dataSocket) + Of(pasvSocket))
      requires dataSocket >= 0 && pasvSocket >= 0 ==> dataSocket == pasvSocket
      modifies this
      ensures Accounted() && dataSocket == -1 && pasvSocket == -1 && Open(drops, {})
      ensures |drops| == |old(drops)|
    {
      var s := dataSocket;
      if s < 0 {
        s := pasvSocket;
      }
      var _ := CloseSocket(s);
      dataSocket, pasvSocket := -1, -1;
    }

    method CommandRetrieve(allowed: bool, opens: bool, isDirectory: bool, dial: Dial)
      requires Quiet()
      modifies this
      ensures Quiet() && Follows(old(pasvSocket >= 0), old(|drops|), Retrieve(allowed, opens, isDirectory, dial))
    {
      if !allowed || !opens || isDirectory {
        return;
      }
      var s := DataSocket(dial);
      CloseDataSocket();
    }

    method CommandStore(allowed: bool, dial: Dial, end: StoreEnd)
      requires Quiet()
      modifies this
      ensures Quiet() && Follows(old(pasvSocket >= 0), old(|drops|), Store(allowed, dial, end))
    {
      if !allowed {
        return;
      }
      var s := DataSocket(dial);
      if s < 0 {
        return;
      }
      match end {
        case NoMemory => CloseDataSocket(); return;
        case TooLong => CloseDataSocket(); return;
        case HookFailed => CloseDataSocket(); return;
        case NotCreated => CloseDataSocket(); return;
        case WriteError => CloseDataSocket(); return;
        case HookDone =>
        case Stored =>
      }
      CloseDataSocket();
    }

    method CommandList(allowed: bool, dial: Dial)
      requires Quiet()
      modifies this
      ensures Quiet() && Follows(old(pasvSocket >= 0), old(|drops|), List(allowed, dial))
    {
      if !allowed {
        return;
      }
      var s := DataSocket(dial);
      if s < 0 {
        return;
      }
      CloseDataSocket();
    }

    method CommandPasv(creates: bool, named: bool, accepts: bool)
      requires Quiet()
      modifies this
      ensures Quiet() && Follows(old(pasvSocket >= 0), old(|drops|), Pasv(creates, named, accepts))
    {
      var err := true;
      CloseDataSocket();
      var s := Socket(creates);
      if s >= 0 && named {
        pasvSocket := Socket(accepts);
        if pasvSocket >= 0 {
          var _ := CloseSocket(s);
          s, err := -1, false;
        }
      }
      if err {
        var _ := CloseSocket(s);
      }
    }

    method Execute(command: Command)
      requires Quiet()
      modifies this
      ensures Quiet() && Follows(old(pasvSocket >= 0), old(|drops|), command)
    {
      match command
      case Retrieve(allowed, opens, isDirectory, dial) => CommandRetrieve(allowed, opens, isDirectory, dial);
      case Store(allowed, dial, end) => CommandStore(allowed, dial, end);
      case List(allowed, dial) => CommandList(allowed, dial);
      case Port => CloseDataSocket();
      case Pasv(creates, named, accepts) => CommandPasv(creates, named, accepts);
      case Other =>
    }
  }

  /** Exactly the socket of a waiting passive connection is held, if any. */
  predicate HeldBetween(drops: seq<nat>, waiting: bool) {
    && (forall i, j :: 0 <= i < j < |drops| ==> drops[i] > 0 || drops[j] > 0)
    && ((exists i :: 0 <= i < |drops| && drops[i] == 0) <==> waiting)
  }

  predicate NothingHeld(drops: seq<nat>) {
    forall i :: 0 <= i < |drops| ==> drops[i] > 0
  }

  lemma PortHoldsNothing(commands: seq<Command>, k: nat, drops: seq<nat>)
    requires k < |commands| && commands[k] == Port && HeldBetween(drops, WaitsAfter(commands[..k + 1]))
    ensures NothingHeld(drops)
  {
    assert commands[..k + 1][..k] == commands[..k];
  }

  /** A whole session. Between commands at most one socket is held, and it is the passive
      connection that waits for its transfer; when the session goes back to the pool every
      socket it has opened has been given up exactly once, and is closed exactly once unless
      both calls of close failed. */
  method RunSession(commands: seq<Command>, closing: nat -> Closing)
    returns (drops: seq<nat>, closes: seq<nat>, between: seq<seq<nat>>)
    ensures |drops| == |closes| == OpensIn(commands) && |between| == |commands|
    ensures forall i :: 0 <= i < |drops| ==> drops[i] == 1 && closes[i] == if closing(i).Never? then 0 else 1
    ensures forall k :: 0 <= k < |between| ==> HeldBetween(between[k], WaitsAfter(commands[..k + 1]))
    ensures forall k :: 0 <= k < |between| && commands[k] == Port ==> NothingHeld(between[k])
  {
    var session := new Session(closing);
    between := [];
    for k := 0 to |commands|
      invariant session.Quiet() && fresh(session) && |between| == k
      invariant (session.pasvSocket >= 0) == WaitsAfter(commands[..k]) && |session.drops| == OpensIn(commands[..k])
      invariant forall j :: 0 <= j < k ==> HeldBetween(between[j], WaitsAfter(commands[..j + 1]))
    {
      assert commands[..k + 1][..k] == commands[..k];
      session.Execute(commands[k]);
      between := between + [session.drops];
    }
    assert commands[..|commands|] == commands;
    forall k | 0 <= k < |between| && commands[k] == Port ensures NothingHeld(between[k]) {
      PortHoldsNothing(commands, k, between[k]);
    }
    session.CloseDataSocket();
    drops, closes := session.drops, session.closes;
  }
}
