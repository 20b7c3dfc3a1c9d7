/** Opening a connection: the daemon selects a protocol generation, the client
    verifies the selection and the daemon's identity, and only then attaches. */
module Handshake {
  import opened Decimal
  import Framing
  import Rejection

  const MIN_GENERATION: nat := 2
  const MAX_GENERATION: nat := 3
  const LEGACY_GENERATION: nat := 2
  const MAX_CAPABILITIES: nat := 256
  const MAX_CAPABILITY_BYTES: nat := 64

  type Id = string

  // ---- the daemon's half ----

  datatype Hello = Hello(min: nat, max: nat, capabilities: seq<string>)

  function Min(a: nat, b: nat): nat { if a <= b then a else b }

  function Max(a: nat, b: nat): nat { if a <= b then b else a }

  function SelectGeneration(clientMin: nat, clientMax: nat, daemonMin: nat, daemonMax: nat): Option<nat> {
    var selected := Min(clientMax, daemonMax);
    if selected >= Max(clientMin, daemonMin) then Some(selected) else None
  }

  /** Capability identifiers hold one-byte characters only, so a length in
      characters is a length in bytes whenever the characters are accepted. */
  predicate UsableCapabilities(capabilities: seq<string>) {
    && |capabilities| <= MAX_CAPABILITIES
    && forall i :: 0 <= i < |capabilities| ==>
         && 0 < |capabilities[i]| <= MAX_CAPABILITY_BYTES
         && forall k :: 0 <= k < |capabilities[i]| ==>
              var c := capabilities[i][k];
              'a' <= c <= 'z' || '0' <= c <= '9' || c in "_.-"
  }

  /** What comes back for a hello. `Broken` is any transport failure but an end
      of file, `Undecodable` a frame that did not decode. */
  datatype Answer =
    | Acked(generation: nat, instance: Option<Id>)
    | ErrorFrame
    | OtherFrame
    | Undecodable
    | Eof
    | Broken

  /** The daemon's reply to a decoded hello, and the generation it then serves. */
  function Serve(hello: Hello, daemonMin: nat, daemonMax: nat, instance: Id): (Answer, Option<nat>) {
    match SelectGeneration(hello.min, hello.max, daemonMin, daemonMax)
    case None => (ErrorFrame, None)
    case Some(generation) =>
      if UsableCapabilities(hello.capabilities) then (Acked(generation, Some(instance)), Some(generation))
      else (ErrorFrame, None)
  }

  /** What one capability identifier may be. */
  predicate Usable(capability: string) {
    1 <= |capability| <= 64
    && forall k :: 0 <= k < |capability| ==>
         var c := capability[k] as int;
         0x61 <= c <= 0x7A || 0x30 <= c <= 0x39 || c == 0x5F || c == 0x2E || c == 0x2D
  }

  /** A hello is acknowledged, with the generation to be spoken and who speaks,
      exactly when the two ranges meet and there are at most 256 capabilities,
      each of them usable; otherwise it is refused and nothing is spoken. */
  lemma ServedExactly(hello: Hello, daemonMin: nat, daemonMax: nat, instance: Id)
    ensures var (answer, spoken) := Serve(hello, daemonMin, daemonMax, instance);
      && (spoken.Some? <==>
           && (exists g: nat :: Common(hello.min, hello.max, daemonMin, daemonMax, g))
           && |hello.capabilities| <= 256 && forall i :: 0 <= i < |hello.capabilities| ==> Usable(hello.capabilities[i]))
      && answer == (if spoken.Some? then Acked(spoken.value, Some(instance)) else ErrorFrame)
  {
    GreatestCommon(hello.min, hello.max, daemonMin, daemonMax);
  }

  // ---- the client's half ----

  datatype Config = Config(session: Id, view: Option<Id>, expected: Option<Id>)

  function AttachHello(view: Option<Id>): Hello {
    Hello(MIN_GENERATION, if view.Some? then MAX_GENERATION else LEGACY_GENERATION, [])
  }

  predicate InRange(hello: Hello, generation: nat) { hello.min <= generation <= hello.max }

  predicate IdentityMatches(expected: Option<Id>, actual: Option<Id>) {
    expected.Some? ==> actual == expected
  }

  /** A frame, or the failure to get one, while the replay is awaited. The last
      field of `Replay` says whether the screen could be written, of
      `Malformed` and `Unreadable` whether the answer could be sent. */
  datatype Incoming =
    | Replay(session: Id, written: bool)
    | Rejection(code: string, about: Option<Id>, request: Option<nat>)
    | Ignorable
    | Malformed(answered: bool)
    | Unreadable(request: Option<nat>, answered: bool)
    | Gone

  /** One call of `connect` and everything that then happens to the connection,
      up to the end of the attach. */
  datatype Attempt =
    | NoListener
    | Peer(helloSent: bool, answer: Answer, size: Option<(nat, nat)>, sizeSent: bool, attachSent: bool,
           incoming: seq<Incoming>)

  datatype Sent = SentHello(hello: Hello) | SentResize(cols: nat, rows: nat) | SentAttach(view: Option<Id>)
                | SentRejection(request: Option<nat>)

  /** `Waiting` is a call that has not returned yet. */
  datatype End = Done(generation: nat) | Transport | Rejected(code: string) | Fatal | Waiting

  /** One turn of the handshake loop: an end, or `None` for an end of file with
      no reply. */
  function Shaken(config: Config, attempt: Attempt): Option<End> {
    if attempt.NoListener? || !attempt.helloSent then Some(Transport)
    else match attempt.answer
      case Acked(generation, instance) =>
        if !InRange(AttachHello(config.view), generation) then Some(Fatal)
        else if IdentityMatches(config.expected, instance) then Some(Done(generation))
        else Some(Fatal)
      case Broken => Some(Transport)
      case Eof => None
      case _ => Some(Fatal)
  }

  /** A handshake is done exactly with an answer that names a generation of this
      build's, 2 or with a view also 3, from the daemon that was expected if one
      was. An end of file is told apart, a transport that failed can be tried
      again, and every other answer is final. */
  lemma ShakenExactly(config: Config, attempt: Attempt)
    ensures Accepted(config, attempt) <==>
      && attempt.Peer? && attempt.helloSent && attempt.answer.Acked?
      && (attempt.answer.generation == 2 || (config.view.Some? && attempt.answer.generation == 3))
      && (config.expected.None? || attempt.answer.instance == config.expected)
    ensures Accepted(config, attempt) ==> Shaken(config, attempt) == Some(Done(attempt.answer.generation))
    ensures Shaken(config, attempt).None? <==> attempt.Peer? && attempt.helloSent && attempt.answer.Eof?
    ensures Shaken(config, attempt) == Some(End.Transport) <==>
      attempt.NoListener? || !attempt.helloSent || attempt.answer.Broken?
    ensures Shaken(config, attempt).Some? && !Accepted(config, attempt) ==> Shaken(config, attempt).value in {End.Transport, Fatal}
  {
  }

  /** Connect and handshake from the attempt `from` on; `at` is the attempt that
      settled it. Only a first connect diagnoses an end of file, by one retry. */
  method Handshaken(config: Config, world: seq<Attempt>, from: nat, diagnose: bool) returns (at: nat, end: End)
    requires from <= |world|
    ensures from <= at <= |world| && at <= from + 1
    ensures at == from + 1 <==> from < |world| && diagnose && Shaken(config, world[from]).None?
    ensures at == |world| ==> end == Waiting
    ensures at < |world| && Shaken(config, world[at]).Some? ==> end == Shaken(config, world[at]).value
    ensures at < |world| && Shaken(config, world[at]).None? ==> end == if diagnose then Fatal else Transport
  {
    var retried := false;
    at := from;
    while true
      invariant at == from + (if retried then 1 else 0) && at <= |world|
      invariant retried ==> from < |world| && diagnose && Shaken(config, world[from]).None?
      decreases !retried
    {
      if at == |world| {
        return at, Waiting;
      }
      var turn := Shaken(config, world[at]);
      if turn.Some? {
        return at, turn.value;
      }
      if !diagnose {
        return at, Transport;
      }
      if retried {
        return at, Fatal;
      }
      retried := true;
      at := at + 1;
    }
  }

  /** What is said to an incoming frame: a frame that could not be read is
      answered if it is malformed as a whole, and then without a request, or if
      it names the request it was. */
  function AnswerTo(incoming: Incoming): seq<Sent> {
    match incoming
    case Malformed(_) => [SentRejection(None)]
    case Unreadable(request, _) => if request.Some? then [SentRejection(request)] else []
    case _ => []
  }

  /** What one incoming frame decides about the attach, if anything. */
  function Decides(session: Id, generation: nat, incoming: Incoming): Option<End> {
    match incoming
    case Replay(id, written) => if id != session then None else Some(if written then Done(generation) else Fatal)
    case Rejection(code, about, request) =>
      if request == Some(1) && (about.None? || about.value == session) then Some(Rejected(code)) else None
    case Ignorable => None
    case Malformed(answered) => if answered then None else Some(Transport)
    case Unreadable(request, answered) => if request.Some? && !answered then Some(Transport) else None
    case Gone => Some(Transport)
  }

  /** A read that failed, as it comes in. */
  function Failure(error: Framing.ReadError, answered: bool): Incoming {
    match error
    case Transport => Gone
    case MalformedFrame(_) => Malformed(answered)
    case UnknownOp(_, rid) => Unreadable(rid, answered)
    case MalformedBody(_, rid, _) => Unreadable(rid, answered)
  }

  /** A failed read is answered exactly when it has a rejection frame, once and
      under that frame's request; it ends the wait exactly when the transport is
      gone or the answer could not be sent. */
  lemma FailuresAreAnswered(session: Id, generation: nat, error: Framing.ReadError, answered: bool, plain: char -> bool)
    ensures var frame := Rejection.RejectionFrame(error, plain);
      && AnswerTo(Failure(error, answered)) == (if frame.Some? then [SentRejection(frame.value.rid)] else [])
      && (Decides(session, generation, Failure(error, answered)) == Some(End.Transport) <==> error.Transport? || (frame.Some? && !answered))
      && (Decides(session, generation, Failure(error, answered)).None? <==> !error.Transport? && (frame.Some? ==> answered))
  {
    hide Rejection.Message;
  }

  /** The answers sent while the first `n` frames come in. */
  function Answers(incoming: seq<Incoming>, n: nat): seq<Sent>
    requires n <= |incoming|
  {
    if n == 0 then [] else Answers(incoming, n - 1) + AnswerTo(incoming[n - 1])
  }

  /** How many frames are read: up to the first that decides. */
  function Read(session: Id, incoming: seq<Incoming>, n: nat): (read: nat)
    requires n <= |incoming|
    ensures n <= read <= |incoming|
    ensures forall k :: n <= k < read - 1 ==> Decides(session, 0, incoming[k]).None?
    ensures read == |incoming| || (n < read && Decides(session, 0, incoming[read - 1]).Some?)
    decreases |incoming| - n
  {
    if n == |incoming| then n
    else if Decides(session, 0, incoming[n]).Some? then n + 1
    else Read(session, incoming, n + 1)
  }

  function Awaited(session: Id, generation: nat, incoming: seq<Incoming>): End {
    var read := Read(session, incoming, 0);
    if read == 0 || Decides(session, generation, incoming[read - 1]).None? then Waiting
    else Decides(session, generation, incoming[read - 1]).value
  }

  /** Frames after which the wait goes on: a replay of another session, an error
      under another request or about another session, a failed read that was
      answered or is not to be, and anything else that is not the end. */
  predicate Passes(session: Id, incoming: Incoming) {
    || incoming.Ignorable?
    || (incoming.Replay? && incoming.session != session)
    || (incoming.Rejection? && (incoming.request != Some(1) || (incoming.about.Some? && incoming.about.value != session)))
    || (incoming.Malformed? && incoming.answered)
    || (incoming.Unreadable? && (incoming.request.None? || incoming.answered))
  }

  /** The frame at `k` is the first that ends the wait. */
  predicate EndsAt(session: Id, incoming: seq<Incoming>, k: nat) {
    k < |incoming| && !Passes(session, incoming[k]) && forall j :: 0 <= j < k ==> Passes(session, incoming[j])
  }

  lemma PassesExactly(session: Id, generation: nat, incoming: Incoming)
    ensures Decides(session, generation, incoming).None? <==> Passes(session, incoming)
    ensures incoming.Replay? || incoming.Rejection? || incoming.Ignorable? ==> AnswerTo(incoming) == []
  {
  }

  /** Rejected by an error under this attach's request, about this session or
      none; done with a replay of this very session that was written, and failed
      for good with one that was not; lost with the transport. */
  method AwaitReplay(session: Id, generation: nat, incoming: seq<Incoming>) returns (sent: seq<Sent>, end: End)
    ensures end == Awaited(session, generation, incoming)
    ensures sent == Answers(incoming, Read(session, incoming, 0))
    ensures end == Waiting <==> forall j :: 0 <= j < |incoming| ==> Passes(session, incoming[j])
    ensures forall k: nat :: EndsAt(session, incoming, k) ==>
      match incoming[k]
      case Rejection(code, _, _) => end == Rejected(code)
      case Replay(_, written) => end == if written then Done(generation) else Fatal
      case Ignorable => false
      case _ => end == End.Transport
    ensures forall k: nat :: EndsAt(session, incoming, k) ==> sent == Answers(incoming, k + 1)
  {
    sent := [];
    var n := 0;
    while n < |incoming|
      invariant n <= |incoming| && sent == Answers(incoming, n)
      invariant Read(session, incoming, 0) == Read(session, incoming, n)
      invariant forall k :: 0 <= k < n ==> Passes(session, incoming[k])
    {
      var frame := incoming[n];
      PassesExactly(session, generation, frame);
      sent := sent + AnswerTo(frame);
      n := n + 1;
      if Decides(session, generation, frame).Some? {
        assert EndsAt(session, incoming, n - 1);
        return sent, Decides(session, generation, frame).value;
      }
    }
    return sent, Waiting;
  }

  // ---- one attempt, as a whole ----

  predicate Accepted(config: Config, attempt: Attempt) {
    var turn := Shaken(config, attempt);
    turn.Some? && turn.value.Done?
  }

  function ViewAt(config: Config, generation: nat): Option<Id> {
    if generation > LEGACY_GENERATION then config.view else None
  }

  /** Every frame an attempt puts on its connection, in order. */
  function Sends(config: Config, attempt: Attempt): seq<Sent> {
    if attempt.NoListener? then []
    else if !Accepted(config, attempt) then [SentHello(AttachHello(config.view))]
    else [SentHello(AttachHello(config.view))] + Attaching(config, attempt)
  }

  function Attaching(config: Config, attempt: Attempt): seq<Sent>
    requires Accepted(config, attempt)
  {
    var attach := SentAttach(ViewAt(config, attempt.answer.generation));
    var resize := if attempt.size.Some? then [SentResize(attempt.size.value.0, attempt.size.value.1)] else [];
    if attempt.size.Some? && !attempt.sizeSent then resize
    else if !attempt.attachSent then resize + [attach]
    else resize + [attach] + Answers(attempt.incoming, Read(config.session, attempt.incoming, 0))
  }

  function AttachEnds(config: Config, attempt: Attempt): End
    requires Accepted(config, attempt)
  {
    if attempt.size.Some? && !attempt.sizeSent then Transport
    else if !attempt.attachSent then Transport
    else Awaited(config.session, attempt.answer.generation, attempt.incoming)
  }

  /** The end of connect-and-attach when this attempt settles it. */
  function Settles(config: Config, attempt: Attempt, diagnose: bool): End {
    match Shaken(config, attempt)
    case None => if diagnose then Fatal else Transport
    case Some(end) => if end.Done? then AttachEnds(config, attempt) else end
  }

  /** The rest of connect-and-attach, on a connection whose handshake is done. */
  method Attach(config: Config, attempt: Attempt, generation: nat) returns (sent: seq<Sent>, end: End)
    requires Shaken(config, attempt) == Some(Done(generation))
    ensures sent == Attaching(config, attempt) && end == AttachEnds(config, attempt)
    ensures var resize := if attempt.size.Some? then [SentResize(attempt.size.value.0, attempt.size.value.1)] else [];
      var attach := SentAttach(if generation > 2 then config.view else None);
      if attempt.size.Some? && !attempt.sizeSent then sent == resize && end == End.Transport
      else if !attempt.attachSent then sent == resize + [attach] && end == End.Transport
      else resize + [attach] <= sent && end == Awaited(config.session, generation, attempt.incoming)
  {
    hide Awaited, Read, Answers;
    sent := [];
    if attempt.size.Some? {
      sent := sent + [SentResize(attempt.size.value.0, attempt.size.value.1)];
      if !attempt.sizeSent {
        return sent, Transport;
      }
    }
    sent := sent + [SentAttach(if generation > LEGACY_GENERATION then config.view else None)];
    if !attempt.attachSent {
      return sent, Transport;
    }
    var answers;
    answers, end := AwaitReplay(config.session, generation, attempt.incoming);
    sent := sent + answers;
  }

  /** What an attempt that does not get past its handshake sends and ends with. */
  lemma Unshaken(config: Config, attempt: Attempt, diagnose: bool)
    requires !Accepted(config, attempt)
    ensures Sends(config, attempt) == if attempt.NoListener? then [] else [SentHello(AttachHello(config.view))]
    ensures Shaken(config, attempt).None? ==> Settles(config, attempt, diagnose) == if diagnose then Fatal else Transport
    ensures Shaken(config, attempt).Some? ==> Settles(config, attempt, diagnose) == Shaken(config, attempt).value
  {
  }

  lemma ShakenWaitsForNothing(config: Config, attempt: Attempt)
    ensures Shaken(config, attempt) != Some(Waiting)
    ensures Shaken(config, attempt).Some? && Shaken(config, attempt).value.Done? ==>
      attempt.Peer? && Shaken(config, attempt) == Some(Done(attempt.answer.generation))
  {
  }

  /** `log` holds, for each attempt from `from` on, what it sent. */
  method ConnectAndAttach(config: Config, world: seq<Attempt>, from: nat, reconnecting: bool)
    returns (used: nat, log: seq<seq<Sent>>, end: End)
    requires from <= |world|
    ensures from <= used <= |world| && used <= from + 2 && |log| == used - from
    ensures forall k :: 0 <= k < |log| ==> log[k] == Sends(config, world[from + k])
    ensures used == from + 2 ==> !reconnecting
    ensures forall k :: from <= k < used - 1 ==> Shaken(config, world[k]).None?
    ensures end != Waiting ==> from < used && end == Settles(config, world[used - 1], !reconnecting)
    ensures end == Waiting ==> used == |world| || (from < used && Settles(config, world[used - 1], !reconnecting) == Waiting)
    ensures end == Waiting && used == |world| && from < used ==>
      Shaken(config, world[used - 1]).None? || Settles(config, world[used - 1], !reconnecting) == Waiting
  {
    hide Attaching, AttachEnds, Shaken, AttachHello;
    var at, shaken := Handshaken(config, world, from, !reconnecting);
    log := [];
    if at > from {
      Unshaken(config, world[from], true);
      log := [[SentHello(AttachHello(config.view))]];
      assert !world[from].NoListener? by {
        NoListenerIsNoEof(config, world[from]);
      }
    }
    if at == |world| {
      return at, log, Waiting;
    }
    used := at + 1;
    var attempt := world[at];
    ShakenWaitsForNothing(config, attempt);
    if shaken.Done? {
      var sent;
      sent, end := Attach(config, attempt, shaken.generation);
      log := log + [[SentHello(AttachHello(config.view))] + sent];
    } else {
      Unshaken(config, attempt, !reconnecting);
      end := shaken;
      log := log + [if attempt.NoListener? then [] else [SentHello(AttachHello(config.view))]];
    }
  }

  lemma NoListenerIsNoEof(config: Config, attempt: Attempt)
    ensures Shaken(config, attempt).None? ==> attempt.Peer?
  {
  }

  /** An end of file with no reply never ends a run that was attached, and an
      attempt that attaches does so whoever asked. */
  lemma Diagnosed(config: Config, attempt: Attempt)
    ensures Shaken(config, attempt).None? ==> Settles(config, attempt, false) == Transport
    ensures Shaken(config, attempt).Some? ==> Settles(config, attempt, false) == Settles(config, attempt, true)
  {
  }

  // ---- the whole client: a first connect, then a reconnect per lost transport ----

  datatype Pump = Reconnect | SessionEnded

  datatype Ending = Running | Ended | Failed

  /** Nothing after this attempt is possible. */
  predicate EndsTheRun(config: Config, attempt: Attempt) {
    var end := Settles(config, attempt, false);
    end == Fatal || end.Rejected?
  }

  predicate LogIs(config: Config, world: seq<Attempt>, used: nat, log: seq<seq<Sent>>) {
    && |log| == used <= |world|
    && forall k :: 0 <= k < used ==> log[k] == Sends(config, world[k])
  }

  predicate GoesOn(config: Config, world: seq<Attempt>, used: nat)
    requires used <= |world|
  {
    forall k :: 0 <= k < used ==> !EndsTheRun(config, world[k])
  }

  /** A run that used the first attempts of `world` and, after its first
      connect, reconnected `reconnects` times. */
  predicate IsRun(config: Config, world: seq<Attempt>, pumps: seq<Pump>, used: nat, log: seq<seq<Sent>>, ending: Ending,
                  reconnects: nat)
  {
    && LogIs(config, world, used, log)
    && reconnects <= |pumps| && (forall i :: 0 <= i < reconnects ==> pumps[i] == Reconnect)
    && (used > 0 ==> GoesOn(config, world, used - 1))
    && (used > 0 && EndsTheRun(config, world[used - 1]) ==> ending != Running)
    && match ending
       case Failed => used > 0 && FailedBecause(Settles(config, world[used - 1], reconnects == 0), reconnects == 0)
       case Ended => used > 0 && EndedBecause(Settles(config, world[used - 1], reconnects == 0), pumps, reconnects)
       case Running =>
         used == |world| || reconnects == |pumps|
         || (used > 0 && Settles(config, world[used - 1], reconnects == 0) == Waiting)
  }

  /** Any failure of the first connect is one of the run; of a reconnect, only
      a fatal one. */
  predicate FailedBecause(end: End, first: bool) {
    if first then !end.Done? && end != Waiting else end == Fatal
  }

  predicate EndedBecause(end: End, pumps: seq<Pump>, reconnects: nat) {
    || (end.Done? && reconnects < |pumps| && pumps[reconnects] == SessionEnded)
    || (end.Rejected? && reconnects > 0)
  }

  lemma EofGoesOn(config: Config, world: seq<Attempt>, from: nat, used: nat)
    requires from <= used <= |world| && used <= from + 2
    requires forall k :: from <= k < used - 1 ==> Shaken(config, world[k]).None?
    ensures forall k :: from <= k < used - 1 ==> !EndsTheRun(config, world[k])
    ensures from < used && Shaken(config, world[used - 1]).None? ==> !EndsTheRun(config, world[used - 1])
    ensures from < used ==>
      var last := world[used - 1];
      Settles(config, last, true) == Settles(config, last, false) || Shaken(config, last).None?
  {
    hide Sends, Settles, Shaken;
    forall k | from <= k < used
      ensures Shaken(config, world[k]).None? ==> !EndsTheRun(config, world[k])
      ensures Settles(config, world[k], true) == Settles(config, world[k], false) || Shaken(config, world[k]).None?
    {
      Diagnosed(config, world[k]);
    }
  }

  lemma LogGrows(config: Config, world: seq<Attempt>, from: nat, log: seq<seq<Sent>>, used: nat, more: seq<seq<Sent>>)
    requires LogIs(config, world, from, log) && from <= used <= |world| && |more| == used - from
    requires forall k :: 0 <= k < |more| ==> more[k] == Sends(config, world[from + k])
    ensures LogIs(config, world, used, log + more)
  {
    hide Sends;
    forall k | 0 <= k < used ensures (log + more)[k] == Sends(config, world[k]) {
      if k >= from {
        assert more[k - from] == Sends(config, world[from + (k - from)]);
      }
    }
  }

  /** The attached client, with each pumping loop's result in `pumps`. */
  method Attached(config: Config, world: seq<Attempt>, pumps: seq<Pump>)
    returns (used: nat, log: seq<seq<Sent>>, ending: Ending, reconnects: nat)
    ensures IsRun(config, world, pumps, used, log, ending, reconnects)
  {
    hide Sends, Settles, Shaken;
    reconnects := 0;
    var end;
    used, log, end := ConnectAndAttach(config, world, 0, false);
    EofGoesOn(config, world, 0, used);
    if end == Waiting {
      return used, log, Running, reconnects;
    }
    if !end.Done? {
      return used, log, Failed, reconnects;
    }
    Diagnosed(config, world[used - 1]);
    while reconnects < |pumps|
      invariant reconnects <= |pumps| && forall i :: 0 <= i < reconnects ==> pumps[i] == Reconnect
      invariant LogIs(config, world, used, log) && used > 0 && GoesOn(config, world, used)
      invariant Settles(config, world[used - 1], reconnects == 0).Done?
    {
      if pumps[reconnects] == SessionEnded {
        return used, log, Ended, reconnects;
      }
      reconnects := reconnects + 1;
      var attached := false;
      while !attached
        invariant LogIs(config, world, used, log) && used > 0 && GoesOn(config, world, used)
        invariant attached ==> Settles(config, world[used - 1], false).Done?
        decreases |world| - used, !attached
      {
        var more;
        var from := used;
        used, more, end := ConnectAndAttach(config, world, from, true);
        LogGrows(config, world, from, log, used, more);
        log := log + more;
        EofGoesOn(config, world, from, used);
        match end {
          case Done(_) => attached := true;
          case Transport =>
          case Rejected(_) => return used, log, Ended, reconnects;
          case Fatal => return used, log, Failed, reconnects;
          case Waiting => return used, log, Running, reconnects;
        }
      }
    }
    ending := Running;
  }

  // ---- what the handshakes guarantee ----

  /** The two halves together, for any two ranges and any daemon: the handshake
      completes exactly when the ranges share a generation, the capabilities
      are usable and the identity is the expected one; both ends then hold the
      same generation, the greatest the ranges share. */
  lemma BothEndsHoldTheGreatestCommon(config: Config, attempt: Attempt, daemonMin: nat, daemonMax: nat, instance: Id)
    requires attempt.Peer? && attempt.helloSent
    requires attempt.answer == Serve(AttachHello(config.view), daemonMin, daemonMax, instance).0
    ensures var hello := AttachHello(config.view);
      && (Accepted(config, attempt) <==>
           && (exists g: nat :: Common(hello.min, hello.max, daemonMin, daemonMax, g))
           && IdentityMatches(config.expected, Some(instance)))
      && (Accepted(config, attempt) ==>
           var g := Shaken(config, attempt).value.generation;
           && Serve(hello, daemonMin, daemonMax, instance).1 == Some(g)
           && Common(hello.min, hello.max, daemonMin, daemonMax, g)
           && forall h: nat :: Common(hello.min, hello.max, daemonMin, daemonMax, h) ==> h <= g)
  {
    var hello := AttachHello(config.view);
    GreatestCommon(hello.min, hello.max, daemonMin, daemonMax);
  }

  predicate Common(a: nat, b: nat, c: nat, d: nat, g: nat) { a <= g <= b && c <= g <= d }

  lemma GreatestCommon(a: nat, b: nat, c: nat, d: nat)
    ensures SelectGeneration(a, b, c, d).Some? <==> exists g: nat :: Common(a, b, c, d, g)
    ensures SelectGeneration(a, b, c, d).Some? ==>
      var g := SelectGeneration(a, b, c, d).value;
      Common(a, b, c, d, g) && forall h: nat :: Common(a, b, c, d, h) ==> h <= g
  {
    if SelectGeneration(a, b, c, d).Some? {
      assert Common(a, b, c, d, SelectGeneration(a, b, c, d).value);
    }
  }

  /** A hello the daemon refuses names no generation the client could take, so
      a range check that fails means a daemon that broke the rule. */
  lemma HonestSelectionPassesTheCheck(hello: Hello, daemonMin: nat, daemonMax: nat, instance: Id)
    ensures var served := Serve(hello, daemonMin, daemonMax, instance);
      && (served.1.Some? <==> served.0.Acked?)
      && (served.0.Acked? ==> InRange(hello, served.0.generation) && served.1 == Some(served.0.generation))
  {
    GreatestCommon(hello.min, hello.max, daemonMin, daemonMax);
  }

  predicate AnsweredByAnother(config: Config, attempt: Attempt) {
    attempt.Peer? && attempt.helloSent && attempt.answer.Acked? && attempt.answer.instance != config.expected
  }

  /** A fenced client says nothing beyond its hello to any other daemon. */
  lemma FencedAttempt(config: Config, attempt: Attempt)
    requires config.expected.Some?
    ensures |Sends(config, attempt)| > 1 ==> attempt.Peer? && attempt.answer.Acked? && attempt.answer.instance == config.expected
    ensures AnsweredByAnother(config, attempt) ==> EndsTheRun(config, attempt)
  {
  }

  lemma {:induction false} AnswersAreRejections(incoming: seq<Incoming>, n: nat)
    requires n <= |incoming|
    ensures forall k :: 0 <= k < |Answers(incoming, n)| ==> Answers(incoming, n)[k].SentRejection?
  {
    if n > 0 {
      AnswersAreRejections(incoming, n - 1);
    }
  }

  /** What any attempt sends: one hello first, then at most one attach, which
      carries the view exactly above the legacy generation, preceded by nothing
      but the size. */
  lemma ViewOnlyAboveLegacy(config: Config, attempt: Attempt, k: nat)
    requires k < |Sends(config, attempt)|
    ensures var frame := Sends(config, attempt)[k];
      && (frame.SentHello? <==> k == 0)
      && (frame.SentAttach? ==>
           && attempt.answer.Acked? && 1 <= k <= 2
           && (frame.view.Some? <==> attempt.answer.generation > LEGACY_GENERATION)
           && (frame.view.Some? ==> frame.view == config.view))
      && (frame.SentResize? ==> k == 1)
  {
    if Accepted(config, attempt) {
      AnswersAreRejections(attempt.incoming, Read(config.session, attempt.incoming, 0));
    }
  }

  /** Over a whole run, first connect and reconnects alike: another daemon is
      never sent more than a hello, is the last one talked to, and ends the run
      with a failure; a view id reaches only a daemon above the legacy
      generation. */
  lemma {:induction false} FencedRun(config: Config, world: seq<Attempt>, pumps: seq<Pump>, used: nat, log: seq<seq<Sent>>, ending: Ending,
                  reconnects: nat, k: nat)
    requires IsRun(config, world, pumps, used, log, ending, reconnects) && k < used
    ensures config.expected.Some? && |log[k]| > 1 ==>
      world[k].Peer? && world[k].answer.Acked? && world[k].answer.instance == config.expected
    ensures config.expected.Some? && AnsweredByAnother(config, world[k]) ==>
      log[k] == [SentHello(AttachHello(config.view))] && k == used - 1 && ending == Failed
    ensures forall j :: 0 <= j < |log[k]| && log[k][j].SentAttach? && log[k][j].view.Some? ==>
      world[k].Peer? && world[k].answer.Acked? && world[k].answer.generation > LEGACY_GENERATION
  {
    assert log[k] == Sends(config, world[k]);
    if config.expected.Some? {
      FencedAttempt(config, world[k]);
    }
    forall j | 0 <= j < |log[k]| && log[k][j].SentAttach? && log[k][j].view.Some?
      ensures world[k].Peer? && world[k].answer.Acked? && world[k].answer.generation > LEGACY_GENERATION
    {
      ViewOnlyAboveLegacy(config, world[k], j);
    }
  }
}
