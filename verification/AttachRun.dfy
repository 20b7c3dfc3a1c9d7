/** The attach client once it is attached: one input queue, one writer, and as
    many transports as it takes. The tasks interleave at their await points, so
    a run is any sequence of the steps below. */
module AttachRun {
  import opened Decimal

  const QUEUE_FRAMES := 64

  /** The connection counter is a `u64` that wraps. */
  const GENERATIONS: nat := 0x1_0000_0000_0000_0000

  datatype Frame = Write(bytes: seq<nat>) | Resize(cols: nat, rows: nat)

  /** `Input` outlives a transport. `Reply` answers a frame of one transport and
      carries that transport's generation; `cause` is the transport itself. */
  datatype Item = Input(frame: Frame) | Reply(generation: nat, cause: nat)

  datatype Phase = Pumping | Reconnecting | Ended

  /** What became of an input: put on a transport, lost with one, or dropped
      because the terminal had already changed size again. */
  datatype Fate = Delivered(on: nat) | Lost(on: nat) | Stale

  /** One look of the writer's at a frame: the size of the terminal then, if there
      is one, the transport, and whether the frame was kept. */
  datatype Look = Look(item: Item, size: Option<(nat, nat)>, transport: nat, kept: bool)

  /** The client's variables, then the history of the run: every input queued,
      what became of those taken, what each transport carried, and every look. */
  datatype State = State(
    phase: Phase, queue: seq<Item>, pending: Option<Item>, flying: Option<Item>, generation: nat,
    transport: nat, inputs: seq<Frame>, fates: seq<Fate>, wire: seq<seq<Item>>, looks: seq<Look>)

  const START := State(Pumping, [], None, None, 0, 0, [], [], [[]], [])

  /** `LookAt` is the writer's look at `pending` with the terminal at `size`.
      `Drop` is the transport ending, in a send or in a read; a frame in flight
      may or may not have arrived, and nothing will tell. */
  datatype Step =
    | QueueInput(frame: Frame)
    | QueueReply
    | Receive
    | LookAt(size: Option<(nat, nat)>)
    | Sent
    | Drop(arrived: bool)
    | Reattach
    | Stop

  predicate IsStale(item: Item, generation: nat, size: Option<(nat, nat)>) {
    match item
    case Reply(queued, _) => queued != generation
    case Input(Resize(cols, rows)) => size.Some? && size.value != (cols, rows)
    case Input(Write(_)) => false
  }

  predicate Enabled(s: State, step: Step) {
    match step
    case QueueInput(_) => s.phase != Ended && |s.queue| < QUEUE_FRAMES
    case QueueReply => s.phase == Pumping && |s.queue| < QUEUE_FRAMES
    case Receive => s.phase == Pumping && s.pending.None? && s.flying.None? && s.queue != []
    case LookAt(_) => s.phase == Pumping && s.pending.Some? && s.flying.None?
    case Sent => s.phase == Pumping && s.flying.Some?
    case Drop(_) => s.phase == Pumping
    case Reattach => s.phase == Reconnecting
    case Stop => true
  }

  function Settle(s: State, item: Item, fate: Fate): State {
    if item.Input? then s.(fates := s.fates + [fate]) else s
  }

  function PutOn(s: State, item: Item): State
    requires s.transport < |s.wire|
  {
    Settle(s.(wire := s.wire[s.transport := s.wire[s.transport] + [item]]), item, Delivered(s.transport))
  }

  function Landed(s: State, arrived: bool): State
    requires s.transport < |s.wire|
  {
    match s.flying
    case None => s
    case Some(item) => (if arrived then PutOn(s, item) else Settle(s, item, Lost(s.transport))).(flying := None)
  }

  /** The next generation: a reply that was pending belonged to the last one. */
  function Renewed(s: State): State {
    s.(phase := Reconnecting, generation := (s.generation + 1) % GENERATIONS,
       pending := if s.pending.Some? && s.pending.value.Reply? then None else s.pending,
       transport := s.transport + 1, wire := s.wire + [[]])
  }

  /** The looks, with the one about to be had. */
  function Seen(s: State, size: Option<(nat, nat)>): seq<Look> {
    if s.pending.None? then s.looks
    else s.looks + [Look(s.pending.value, size, s.transport, !IsStale(s.pending.value, s.generation, size))]
  }

  /** A step; one that is not enabled does nothing. */
  function Apply(s: State, step: Step): State
    requires s.transport < |s.wire|
  {
    if !Enabled(s, step) then s else
      match step
      case QueueInput(frame) => s.(queue := s.queue + [Input(frame)], inputs := s.inputs + [frame])
      case QueueReply => s.(queue := s.queue + [Reply(s.generation, s.transport)])
      case Receive => s.(pending := Some(s.queue[0]), queue := s.queue[1..])
      case LookAt(size) =>
        var item := s.pending.value;
        var stale := IsStale(item, s.generation, size);
        var s := s.(looks := Seen(s, size));
        if stale then Settle(s.(pending := None), item, Stale) else s.(pending := None, flying := Some(item))
      case Sent => PutOn(s, s.flying.value).(flying := None)
      case Drop(arrived) =>
        Renewed(Landed(s, arrived))
      case Reattach => s.(phase := Pumping)
      case Stop => s.(phase := Ended)
  }

  function Run(s: State, steps: seq<Step>): State
    requires Inv(s)
    decreases |steps|
  {
    if steps == [] then s
    else
      StepKeepsInv(s, steps[0]);
      Run(Apply(s, steps[0]), steps[1..])
  }

  // ---- what holds throughout ----

  function Carries(item: Item): seq<Frame> { if item.Input? then [item.frame] else [] }

  function InputsOf(items: seq<Item>): seq<Frame> {
    if items == [] then [] else Carries(items[0]) + InputsOf(items[1..])
  }

  function AsSeq(item: Option<Item>): seq<Item> { if item.Some? then [item.value] else [] }

  function Waiting(s: State): seq<Item> { AsSeq(s.flying) + (AsSeq(s.pending) + s.queue) }

  /** The inputs whose fate is delivery on transport `t`, in order. */
  function On(inputs: seq<Frame>, fates: seq<Fate>, t: nat): seq<Frame>
    requires |fates| <= |inputs|
    decreases |fates|
  {
    if fates == [] then []
    else
      var n := |fates| - 1;
      On(inputs, fates[..n], t) + if fates[n] == Delivered(t) then [inputs[n]] else []
  }

  /** A reply's generation is its cause's, and its cause is not yet to come. */
  predicate Caused(item: Item, transport: nat) {
    item.Reply? ==> item.cause <= transport && item.generation == item.cause % GENERATIONS
  }

  predicate FatesOk(inputs: seq<Frame>, fates: seq<Fate>, transport: nat) {
    && |fates| <= |inputs|
    && (forall i :: 0 <= i < |fates| && fates[i].Stale? ==> inputs[i].Resize?)
    && (forall i :: 0 <= i < |fates| && fates[i].Delivered? ==> fates[i].on <= transport)
    && (forall i :: 0 <= i < |fates| && fates[i].Lost? ==> fates[i].on < transport)
    && (forall i, j :: 0 <= i < j < |fates| && !fates[i].Stale? && !fates[j].Stale? ==> fates[i].on <= fates[j].on)
    && (forall i, j :: 0 <= i < j < |fates| && fates[i].Lost? && !fates[j].Stale? ==> fates[i].on < fates[j].on)
  }

  predicate WireOk(s: State) {
    && |s.wire| == s.transport + 1 && |s.fates| <= |s.inputs|
    && (forall t :: 0 <= t < |s.wire| ==> InputsOf(s.wire[t]) == On(s.inputs, s.fates, t))
    && (forall t, k :: 0 <= t < |s.wire| && 0 <= k < |s.wire[t]| ==>
          Caused(s.wire[t][k], t) && (s.wire[t][k].Reply? ==> s.wire[t][k].generation == t % GENERATIONS))
  }

  predicate Inv(s: State) {
    && s.generation == s.transport % GENERATIONS
    && FatesOk(s.inputs, s.fates, s.transport)
    && WireOk(s)
    && InputsOf(Waiting(s)) == s.inputs[|s.fates|..]
    && (forall k :: 0 <= k < |Waiting(s)| ==> Caused(Waiting(s)[k], s.transport))
    && (s.flying.Some? ==> s.pending.None? && (s.flying.value.Reply? ==> s.flying.value.generation == s.generation))
    && (s.phase == Reconnecting ==> s.flying.None?)
    && (s.phase == Reconnecting && s.pending.Some? ==> s.pending.value.Input?)
    && |s.queue| <= QUEUE_FRAMES
  }

  lemma {:induction false} InputsOfConcat(a: seq<Item>, b: seq<Item>)
    ensures InputsOf(a + b) == InputsOf(a) + InputsOf(b)
    decreases |a|
  {
    hide Carries;
    if a == [] {
      assert a + b == b;
    } else {
      assert (a + b)[0] == a[0] && (a + b)[1..] == a[1..] + b;
      InputsOfConcat(a[1..], b);
      assert Carries(a[0]) + (InputsOf(a[1..]) + InputsOf(b)) == Carries(a[0]) + InputsOf(a[1..]) + InputsOf(b);
    }
  }

  lemma InputsOfOne(item: Item)
    ensures InputsOf([item]) == if item.Input? then [item.frame] else []
  {
    assert [item][1..] == [];
  }

  lemma {:induction false} OnUntouched(inputs: seq<Frame>, more: seq<Frame>, fates: seq<Fate>, t: nat)
    requires |fates| <= |inputs|
    ensures On(inputs + more, fates, t) == On(inputs, fates, t)
    decreases |fates|
  {
    if fates != [] {
      OnUntouched(inputs, more, fates[..|fates| - 1], t);
    }
  }

  lemma OnOneMore(inputs: seq<Frame>, fates: seq<Fate>, fate: Fate, t: nat)
    requires |fates| < |inputs|
    ensures On(inputs, fates + [fate], t)
         == On(inputs, fates, t) + if fate == Delivered(t) then [inputs[|fates|]] else []
  {
    assert (fates + [fate])[..|fates|] == fates;
  }

  lemma {:induction false} OnFuture(inputs: seq<Frame>, fates: seq<Fate>, t: nat)
    requires |fates| <= |inputs|
    requires forall i :: 0 <= i < |fates| && fates[i].Delivered? ==> fates[i].on < t
    ensures On(inputs, fates, t) == []
    decreases |fates|
  {
    if fates != [] {
      OnFuture(inputs, fates[..|fates| - 1], t);
    }
  }

  /** Taking `item` off the front of what waits and giving it a fate. */
  lemma SettleKeeps(s: State, item: Item, rest: seq<Item>, fate: Fate)
    requires FatesOk(s.inputs, s.fates, s.transport) && InputsOf([item] + rest) == s.inputs[|s.fates|..]
    ensures InputsOf(rest) == s.inputs[|Settle(s, item, fate).fates|..]
    ensures item.Input? ==> |s.fates| < |s.inputs| && s.inputs[|s.fates|] == item.frame
  {
    InputsOfConcat([item], rest);
    InputsOfOne(item);
    if item.Input? {
      assert s.inputs[|s.fates|..][0] == item.frame;
      assert s.inputs[|s.fates|..][1..] == s.inputs[|s.fates| + 1..];
    } else {
      assert [] + InputsOf(rest) == InputsOf(rest);
    }
  }

  lemma StaleKeepsWire(s: State, item: Item)
    requires WireOk(s) && (item.Input? ==> |s.fates| < |s.inputs|)
    ensures WireOk(Settle(s, item, Stale)) && WireOk(Settle(s, item, Lost(s.transport)))
  {
    if item.Input? {
      forall t | 0 <= t < |s.wire|
        ensures On(s.inputs, s.fates + [Stale], t) == On(s.inputs, s.fates, t)
        ensures On(s.inputs, s.fates + [Lost(s.transport)], t) == On(s.inputs, s.fates, t)
      {
        OnOneMore(s.inputs, s.fates, Stale, t);
        OnOneMore(s.inputs, s.fates, Lost(s.transport), t);
      }
    }
  }

  lemma PutOnInputs(s: State, item: Item, t: nat)
    requires WireOk(s) && t < |s.wire|
    requires item.Input? ==> |s.fates| < |s.inputs| && s.inputs[|s.fates|] == item.frame
    ensures InputsOf(PutOn(s, item).wire[t]) == On(s.inputs, PutOn(s, item).fates, t)
  {
    hide InputsOf, On;
    if t == s.transport {
      InputsOfConcat(s.wire[t], [item]);
      InputsOfOne(item);
    }
    if item.Input? {
      OnOneMore(s.inputs, s.fates, Delivered(s.transport), t);
    }
    assert On(s.inputs, s.fates, t) + [] == On(s.inputs, s.fates, t);
  }

  lemma PutOnKeepsWire(s: State, item: Item)
    requires WireOk(s) && Caused(item, s.transport)
    requires item.Reply? ==> item.generation == s.transport % GENERATIONS
    requires item.Input? ==> |s.fates| < |s.inputs| && s.inputs[|s.fates|] == item.frame
    ensures WireOk(PutOn(s, item))
  {
    hide InputsOf, On, Caused;
    var s' := PutOn(s, item);
    forall t | 0 <= t < |s'.wire| ensures InputsOf(s'.wire[t]) == On(s'.inputs, s'.fates, t) {
      PutOnInputs(s, item, t);
    }
  }

  lemma WaitingIs(s: State, item: Item)
    ensures s.flying == Some(item) ==> Waiting(s) == [item] + (AsSeq(s.pending) + s.queue)
    ensures s.flying == None && s.pending == Some(item) ==> Waiting(s) == [item] + s.queue
    ensures s.flying == None && s.pending == None ==> Waiting(s) == s.queue
  {
  }

  lemma QueueInputKeeps(s: State, frame: Frame)
    requires Inv(s) && Enabled(s, QueueInput(frame))
    ensures Inv(Apply(s, QueueInput(frame)))
  {
    var s' := Apply(s, QueueInput(frame));
    assert Waiting(s') == Waiting(s) + [Input(frame)];
    InputsOfConcat(Waiting(s), [Input(frame)]);
    InputsOfOne(Input(frame));
    assert s'.inputs[|s.fates|..] == s.inputs[|s.fates|..] + [frame];
    forall t | 0 <= t < |s.wire| ensures On(s'.inputs, s.fates, t) == On(s.inputs, s.fates, t) {
      OnUntouched(s.inputs, [frame], s.fates, t);
    }
  }

  lemma QueueReplyKeeps(s: State)
    requires Inv(s) && Enabled(s, QueueReply)
    ensures Inv(Apply(s, QueueReply))
  {
    var reply := Reply(s.generation, s.transport);
    assert Waiting(Apply(s, QueueReply)) == Waiting(s) + [reply];
    InputsOfConcat(Waiting(s), [reply]);
    InputsOfOne(reply);
  }

  lemma ReceiveKeeps(s: State)
    requires Inv(s) && Enabled(s, Receive)
    ensures Inv(Apply(s, Receive))
  {
    assert Waiting(Apply(s, Receive)) == [s.queue[0]] + s.queue[1..] == s.queue == Waiting(s);
  }

  /** The wire says nothing of what is pending or in flight. */
  lemma WireIgnores(s: State, pending: Option<Item>, flying: Option<Item>, looks: seq<Look>)
    requires WireOk(s)
    ensures |s.wire| == s.transport + 1
    ensures WireOk(s.(pending := pending, flying := flying, looks := looks))
  {
  }

  lemma LookKeeps(s: State, size: Option<(nat, nat)>)
    requires Inv(s) && Enabled(s, LookAt(size))
    ensures Inv(Apply(s, LookAt(size)))
  {
    var item := s.pending.value;
    WireIgnores(s, None, None, Seen(s, size));
    WireIgnores(s, None, Some(item), Seen(s, size));
    hide WireOk, InputsOf, Caused, Seen, IsStale;
    var s' := Apply(s, LookAt(size));
    WaitingIs(s, item);
    if IsStale(item, s.generation, size) {
      WaitingIs(s', item);
      SettleKeeps(s, item, s.queue, Stale);
      StaleKeepsWire(s.(pending := None, flying := None, looks := Seen(s, size)), item);
      assert Waiting(s)[1..] == s.queue;
    } else {
      assert Waiting(s') == Waiting(s);
    }
  }

  lemma LandsWith(s: State, arrived: bool)
    requires s.transport < |s.wire| && s.flying.Some?
    ensures var fate := if arrived then Delivered(s.transport) else Lost(s.transport);
      && Landed(s, arrived).fates == Settle(s, s.flying.value, fate).fates
      && Landed(s, arrived) == s.(fates := Landed(s, arrived).fates, wire := Landed(s, arrived).wire, flying := None)
      && Landed(s, arrived).wire == (if arrived then PutOn(s, s.flying.value) else s).wire
  {
  }

  lemma LandsOk(s: State, arrived: bool)
    requires Inv(s) && s.flying.Some?
    ensures WireOk(Landed(s, arrived))
  {
    var item := s.flying.value;
    WaitingIs(s, item);
    assert Caused(Waiting(s)[0], s.transport);
    SettleKeeps(s, item, AsSeq(s.pending) + s.queue, Stale);
    hide InputsOf, On, Caused;
    if arrived {
      PutOnKeepsWire(s, item);
      WireIgnores(PutOn(s, item), s.pending, None, s.looks);
    } else {
      StaleKeepsWire(s, item);
      WireIgnores(Settle(s, item, Lost(s.transport)), s.pending, None, s.looks);
    }
  }

  lemma FatesGrow(inputs: seq<Frame>, fates: seq<Fate>, transport: nat, arrived: bool)
    requires FatesOk(inputs, fates, transport)
    ensures FatesOk(inputs, fates, transport + 1)
    ensures |fates| < |inputs| ==>
      FatesOk(inputs, fates + [if arrived then Delivered(transport) else Lost(transport)], transport + if arrived then 0 else 1)
  {
  }

  lemma LandedFates(s: State, arrived: bool)
    requires Inv(s) && s.flying.Some?
    ensures FatesOk(s.inputs, Landed(s, arrived).fates, s.transport + if arrived then 0 else 1)
  {
    hide Waiting, WireOk, InputsOf, Caused, PutOn, Landed, FatesOk, AsSeq;
    var item := s.flying.value;
    WireIgnores(s, s.pending, s.flying, s.looks);
    WaitingIs(s, item);
    SettleKeeps(s, item, AsSeq(s.pending) + s.queue, Stale);
    FatesGrow(s.inputs, s.fates, s.transport, arrived);
    LandsWith(s, arrived);
  }

  lemma LandedKeeps(s: State, arrived: bool)
    requires Inv(s) && s.flying.Some?
    ensures var s' := Landed(s, arrived);
      && FatesOk(s'.inputs, s'.fates, s.transport + if arrived then 0 else 1)
      && WireOk(s') && InputsOf(Waiting(s')) == s'.inputs[|s'.fates|..]
      && Waiting(s') == Waiting(s)[1..]
  {
    var item := s.flying.value;
    WireIgnores(s, s.pending, s.flying, s.looks);
    LandsWith(s, arrived);
    LandsOk(s, arrived);
    LandedFates(s, arrived);
    WaitingIs(s, item);
    var s' := Landed(s, arrived);
    var rest := AsSeq(s.pending) + s.queue;
    assert Waiting(s') == rest;
    SettleKeeps(s, item, rest, if arrived then Delivered(s.transport) else Lost(s.transport));
    hide *;
    assert Waiting(s)[1..] == rest;
  }

  /** The transport has ended and whatever was in flight with it. */
  predicate Parted(s: State) {
    && s.generation == s.transport % GENERATIONS
    && FatesOk(s.inputs, s.fates, s.transport + 1) && WireOk(s)
    && (forall i :: 0 <= i < |s.fates| && s.fates[i].Delivered? ==> s.fates[i].on <= s.transport)
    && InputsOf(Waiting(s)) == s.inputs[|s.fates|..]
    && (forall k :: 0 <= k < |Waiting(s)| ==> Caused(Waiting(s)[k], s.transport))
    && s.flying.None? && |s.queue| <= QUEUE_FRAMES
  }

  lemma RenewedWaiting(s: State)
    requires s.flying.None?
    ensures InputsOf(Waiting(Renewed(s))) == InputsOf(Waiting(s))
    ensures forall k :: 0 <= k < |Waiting(Renewed(s))| ==> Waiting(Renewed(s))[k] in Waiting(s)
  {
    if s.pending.Some? && s.pending.value.Reply? {
      InputsOfConcat([s.pending.value], s.queue);
      InputsOfOne(s.pending.value);
      assert [] + InputsOf(s.queue) == InputsOf(s.queue);
      assert Waiting(Renewed(s)) == s.queue && Waiting(s) == [s.pending.value] + s.queue;
    } else {
      assert Waiting(Renewed(s)) == Waiting(s);
    }
  }

  lemma RenewedWire(s: State)
    requires Parted(s)
    ensures WireOk(Renewed(s))
  {
    OnFuture(s.inputs, s.fates, s.transport + 1);
  }

  lemma RenewedKeeps(s: State)
    requires Parted(s)
    ensures Inv(Renewed(s))
  {
    RenewedWire(s);
    RenewedWaiting(s);
    hide WireOk, FatesOk, InputsOf, On, Waiting;
    forall k | 0 <= k < |Waiting(Renewed(s))| ensures Caused(Waiting(Renewed(s))[k], s.transport + 1) {
      assert Waiting(Renewed(s))[k] in Waiting(s);
    }
  }

  lemma DropKeeps(s: State, arrived: bool)
    requires Inv(s) && Enabled(s, Drop(arrived))
    ensures Inv(Apply(s, Drop(arrived)))
  {
    LandedParts(s, arrived);
    RenewedKeeps(Landed(s, arrived));
  }

  lemma LandedDelivered(s: State, arrived: bool)
    requires Inv(s)
    ensures var fates := Landed(s, arrived).fates;
      forall i :: 0 <= i < |fates| && fates[i].Delivered? ==> fates[i].on <= s.transport
    ensures FatesOk(s.inputs, s.fates, s.transport + 1)
    ensures FatesOk(s.inputs, Landed(s, arrived).fates, s.transport) ==> FatesOk(s.inputs, Landed(s, arrived).fates, s.transport + 1)
  {
    hide InputsOf, Caused, WireOk, Waiting;
  }

  lemma LandedParts(s: State, arrived: bool)
    requires Inv(s)
    ensures Parted(Landed(s, arrived))
  {
    if s.flying.Some? {
      LandedKeeps(s, arrived);
      LandsWith(s, arrived);
    }
    LandedDelivered(s, arrived);
    hide InputsOf, On, Caused, WireOk, Waiting, FatesOk, PutOn;
  }

  lemma StepKeepsInv(s: State, step: Step)
    requires Inv(s)
    ensures Inv(Apply(s, step))
  {
    hide WireOk, FatesOk, InputsOf, Caused, On;
    if Enabled(s, step) {
      match step {
        case QueueInput(frame) => QueueInputKeeps(s, frame);
        case QueueReply => QueueReplyKeeps(s);
        case Receive => ReceiveKeeps(s);
        case LookAt(size) => LookKeeps(s, size);
        case Sent => SentKeeps(s);
        case Drop(arrived) => DropKeeps(s, arrived);
        case Reattach => ReattachKeeps(s);
        case Stop => StopKeeps(s);
      }
    }
  }

  lemma SentKeeps(s: State)
    requires Inv(s) && Enabled(s, Sent)
    ensures Inv(Apply(s, Sent))
  {
    LandedKeeps(s, true);
    assert Apply(s, Sent) == Landed(s, true);
  }

  lemma ReattachKeeps(s: State)
    requires Inv(s) && Enabled(s, Reattach)
    ensures Inv(Apply(s, Reattach))
  {
    assert Waiting(Apply(s, Reattach)) == Waiting(s);
  }

  lemma StopKeeps(s: State)
    requires Inv(s)
    ensures Inv(Apply(s, Stop))
  {
    assert Waiting(Apply(s, Stop)) == Waiting(s);
  }

  // ---- what every run keeps ----

  lemma {:induction false} RunKeepsInv(s: State, steps: seq<Step>)
    requires Inv(s)
    ensures Inv(Run(s, steps))
    decreases |steps|
  {
    if steps != [] {
      StepKeepsInv(s, steps[0]);
      RunKeepsInv(Apply(s, steps[0]), steps[1..]);
    }
  }

  lemma StartIsOk()
    ensures Inv(START)
  {
  }

  /** Every input put on any transport, first transport first. */
  function AllSent(wire: seq<seq<Item>>): seq<Frame> {
    if wire == [] then [] else AllSent(wire[..|wire| - 1]) + InputsOf(wire[|wire| - 1])
  }

  predicate Increasing(at: seq<nat>) { forall i, j :: 0 <= i < j < |at| ==> at[i] < at[j] }

  /** `sent` is read off `inputs` at the strictly increasing places `at`. */
  predicate ReadsOff(sent: seq<Frame>, inputs: seq<Frame>, at: seq<nat>) {
    && |at| == |sent|
    && (forall i :: 0 <= i < |at| ==> at[i] < |inputs| && sent[i] == inputs[at[i]])
    && Increasing(at)
  }

  /** The places of the inputs delivered on transports before `t`. */
  function Places(fates: seq<Fate>, t: nat): (at: seq<nat>)
    ensures forall i :: 0 <= i < |at| ==> at[i] < |fates|
    decreases |fates|
  {
    if fates == [] then []
    else
      var n := |fates| - 1;
      Places(fates[..n], t) + if fates[n].Delivered? && fates[n].on < t then [n] else []
  }

  lemma {:induction false} PlacesIncrease(fates: seq<Fate>, t: nat)
    ensures Increasing(Places(fates, t))
    decreases |fates|
  {
    if fates != [] {
      var n := |fates| - 1;
      PlacesIncrease(fates[..n], t);
      var before := Places(fates[..n], t);
      var at := Places(fates, t);
      assert at == before + (if fates[n].Delivered? && fates[n].on < t then [n] else []);
    }
  }

  function Picked(inputs: seq<Frame>, at: seq<nat>): (r: seq<Frame>)
    requires forall i :: 0 <= i < |at| ==> at[i] < |inputs|
    ensures |r| == |at| && forall i :: 0 <= i < |r| ==> r[i] == inputs[at[i]]
  {
    seq(|at|, i requires 0 <= i < |at| => inputs[at[i]])
  }

  /** Delivery never goes back to an earlier transport, so transport by
      transport is input by input. */
  lemma {:induction false} PlacesByTransport(inputs: seq<Frame>, fates: seq<Fate>, t: nat)
    requires |fates| <= |inputs|
    requires forall i, j :: 0 <= i < j < |fates| && !fates[i].Stale? && !fates[j].Stale? ==> fates[i].on <= fates[j].on
    ensures Picked(inputs, Places(fates, t + 1)) == Picked(inputs, Places(fates, t)) + On(inputs, fates, t)
    decreases |fates|
  {
    if fates != [] {
      var n := |fates| - 1;
      var before := fates[..n];
      PlacesByTransport(inputs, before, t);
      if fates[n].Delivered? && fates[n].on < t {
        forall i | 0 <= i < |before| && before[i].Delivered? ensures before[i].on < t {
          assert fates[i].on <= fates[n].on;
        }
        OnPast(inputs, before, t);
      }
    }
  }

  lemma {:induction false} OnPast(inputs: seq<Frame>, fates: seq<Fate>, t: nat)
    requires |fates| <= |inputs|
    requires forall i :: 0 <= i < |fates| && fates[i].Delivered? ==> fates[i].on < t
    ensures On(inputs, fates, t) == []
  {
    OnFuture(inputs, fates, t);
  }

  lemma {:induction false} NoPlacesBeforeFirst(fates: seq<Fate>)
    ensures Places(fates, 0) == []
    decreases |fates|
  {
    if fates != [] {
      NoPlacesBeforeFirst(fates[..|fates| - 1]);
    }
  }

  lemma {:induction false} AllSentIsPicked(s: State, t: nat)
    requires FatesOk(s.inputs, s.fates, s.transport) && WireOk(s) && t <= |s.wire|
    ensures AllSent(s.wire[..t]) == Picked(s.inputs, Places(s.fates, t))
    decreases t
  {
    if t == 0 {
      NoPlacesBeforeFirst(s.fates);
    } else {
      assert s.wire[..t][..t - 1] == s.wire[..t - 1] && s.wire[..t][t - 1] == s.wire[t - 1];
      AllSentIsPicked(s, t - 1);
      PlacesByTransport(s.inputs, s.fates, t - 1);
    }
  }

  /** Over any run: what the transports carried is, in order and without
      repeats, a subsequence of what was queued. */
  lemma {:induction false} SentInOrderWithoutRepeats(steps: seq<Step>) returns (at: seq<nat>)
    ensures Inv(START)
    ensures ReadsOff(AllSent(Run(START, steps).wire), Run(START, steps).inputs, at)
  {
    StartIsOk();
    RunKeepsInv(START, steps);
    var s := Run(START, steps);
    AllSentIsPicked(s, |s.wire|);
    assert s.wire[..|s.wire|] == s.wire;
    at := Places(s.fates, |s.wire|);
    PlacesIncrease(s.fates, |s.wire|);
  }

  /** How many inputs were lost with transport `t`. */
  function LostOn(fates: seq<Fate>, t: nat): nat
    decreases |fates|
  {
    if fates == [] then 0 else LostOn(fates[..|fates| - 1], t) + if fates[|fates| - 1] == Lost(t) then 1 else 0
  }

  lemma {:induction false} LostOnce(fates: seq<Fate>, t: nat)
    requires forall i, j :: 0 <= i < j < |fates| && fates[i].Lost? && !fates[j].Stale? ==> fates[i].on < fates[j].on
    ensures LostOn(fates, t) <= 1
    ensures (forall i :: 0 <= i < |fates| ==> fates[i] != Lost(t)) ==> LostOn(fates, t) == 0
    decreases |fates|
  {
    if fates != [] {
      var n := |fates| - 1;
      var before := fates[..n];
      LostOnce(before, t);
      if fates[n] == Lost(t) {
        assert forall i :: 0 <= i < n ==> before[i] != Lost(t);
      }
    }
  }

  /** Over any run: a reconnect loses at most one input, the current transport
      none so far, only resizes are dropped as stale, and every other input is
      either delivered or still waiting, in order. */
  lemma {:induction false} AtMostOneLostPerTransport(steps: seq<Step>, t: nat)
    ensures Inv(START)
    ensures var s := Run(START, steps);
      && LostOn(s.fates, t) <= (if t < s.transport then 1 else 0)
      && |s.fates| <= |s.inputs|
      && InputsOf(Waiting(s)) == s.inputs[|s.fates|..]
      && forall i :: 0 <= i < |s.fates| && s.fates[i].Stale? ==> s.inputs[i].Resize?
  {
    StartIsOk();
    RunKeepsInv(START, steps);
    LostOnce(Run(START, steps).fates, t);
  }

  // ---- which frames are dropped at a look ----

  /** Bytes are always kept, a resize unless the terminal has another size by
      then, a reply if its generation is the transport's. */
  predicate IsRight(look: Look) {
    match look.item
    case Input(Write(_)) => look.kept
    case Input(Resize(cols, rows)) => look.kept <==> look.size == None || look.size == Some((cols, rows))
    case Reply(_, cause) => look.kept <==> cause % GENERATIONS == look.transport % GENERATIONS
  }

  /** The looks at inputs, in order. */
  function InputLooks(looks: seq<Look>): seq<Look>
    decreases |looks|
  {
    if looks == [] then []
    else
      var last := looks[|looks| - 1];
      InputLooks(looks[..|looks| - 1]) + if last.item.Input? then [last] else []
  }

  /** An input is stale if the look at it did not keep it; otherwise it goes out,
      or is lost, on the transport of that look. */
  predicate Follows(look: Look, frame: Frame, fate: Fate) {
    && look.item == Input(frame) && (fate.Stale? <==> !look.kept)
    && (!fate.Stale? ==> fate.on == look.transport)
  }

  predicate InputFlies(s: State) { s.flying.Some? && s.flying.value.Input? }

  predicate LooksOk(s: State) {
    var seen := InputLooks(s.looks);
    && AllRight(s.looks)
    && |seen| == |s.fates| + (if InputFlies(s) then 1 else 0) && Tied(seen, s.inputs, s.fates)
    && (InputFlies(s) ==> Flies(seen[|s.fates|], s))
  }

  predicate AllRight(looks: seq<Look>) { forall k :: 0 <= k < |looks| ==> IsRight(looks[k]) }

  predicate Tied(seen: seq<Look>, inputs: seq<Frame>, fates: seq<Fate>) {
    |fates| <= |inputs| && |fates| <= |seen| && forall i :: 0 <= i < |fates| ==> Follows(seen[i], inputs[i], fates[i])
  }

  lemma TiedGrows(seen: seq<Look>, inputs: seq<Frame>, fates: seq<Fate>, fate: Fate)
    requires Tied(seen, inputs, fates) && |fates| < |seen| && |fates| < |inputs|
    requires Follows(seen[|fates|], inputs[|fates|], fate)
    ensures Tied(seen, inputs, fates + [fate])
  {
    hide Follows;
  }

  lemma TiedLooks(seen: seq<Look>, more: seq<Look>, inputs: seq<Frame>, fates: seq<Fate>)
    requires Tied(seen, inputs, fates)
    ensures Tied(seen + more, inputs, fates)
  {
    hide Follows;
  }

  lemma TiedInputs(seen: seq<Look>, inputs: seq<Frame>, more: seq<Frame>, fates: seq<Fate>)
    requires Tied(seen, inputs, fates)
    ensures Tied(seen, inputs + more, fates)
  {
    hide Follows;
  }

  lemma RightGrows(looks: seq<Look>, look: Look)
    requires AllRight(looks) && IsRight(look)
    ensures AllRight(looks + [look])
  {
    hide IsRight;
  }

  predicate Flies(look: Look, s: State) { look.kept && s.flying == Some(look.item) && look.transport == s.transport }

  lemma LooksGrow(looks: seq<Look>, look: Look)
    ensures InputLooks(looks + [look]) == InputLooks(looks) + if look.item.Input? then [look] else []
  {
    assert (looks + [look])[..|looks|] == looks;
  }

  lemma LookIsRight(s: State, size: Option<(nat, nat)>)
    requires Inv(s) && Enabled(s, LookAt(size))
    ensures IsRight(Look(s.pending.value, size, s.transport, !IsStale(s.pending.value, s.generation, size)))
  {
    WaitingIs(s, s.pending.value);
    assert Caused(Waiting(s)[0], s.transport);
    hide WireOk, FatesOk, InputsOf, Waiting;
  }

  /** What is at the front of all that waits is the next input, if it is one. */
  lemma FrontIsNext(s: State, item: Item)
    requires Inv(s) && (s.flying == Some(item) || (s.flying.None? && s.pending == Some(item)))
    ensures item.Input? ==> |s.fates| < |s.inputs| && s.inputs[|s.fates|] == item.frame
  {
    WaitingIs(s, item);
    SettleKeeps(s, item, if s.flying.Some? then AsSeq(s.pending) + s.queue else s.queue, Stale);
    hide WireOk, FatesOk, Caused;
  }

  lemma LookKeepsLooks(s: State, size: Option<(nat, nat)>)
    requires Inv(s) && LooksOk(s) && Enabled(s, LookAt(size))
    ensures LooksOk(Apply(s, LookAt(size)))
  {
    HasWire(s);
    FrontIsNext(s, s.pending.value);
    LookIsRight(s, size);
    hide Inv;
    var item, stale := s.pending.value, IsStale(s.pending.value, s.generation, size);
    var look := Look(item, size, s.transport, !stale);
    var seen := InputLooks(s.looks);
    LooksGrow(s.looks, look);
    RightGrows(s.looks, look);
    if item.Input? {
      TiedLooks(seen, [look], s.inputs, s.fates);
      if stale {
        assert Follows((seen + [look])[|s.fates|], s.inputs[|s.fates|], Stale);
        TiedGrows(seen + [look], s.inputs, s.fates, Stale);
      }
    }
    hide AllRight, Tied, InputLooks, IsStale, Follows;
  }

  /** What flies lands or is lost as its look says. */
  lemma LandedKeepsLooks(s: State, arrived: bool)
    requires Inv(s) && LooksOk(s) && s.flying.Some?
    ensures LooksOk(Landed(s, arrived)) && !InputFlies(Landed(s, arrived))
  {
    HasWire(s);
    var item := s.flying.value;
    FrontIsNext(s, item);
    hide Inv;
    LandsWith(s, arrived);
    var fate := if arrived then Delivered(s.transport) else Lost(s.transport);
    if item.Input? {
      TiedGrows(InputLooks(s.looks), s.inputs, s.fates, fate);
    }
    hide AllRight, Tied, InputLooks, Follows, Landed, PutOn;
  }

  lemma RenewedKeepsLooks(s: State)
    requires LooksOk(s) && !InputFlies(s)
    ensures LooksOk(Renewed(s))
  {
    hide InputLooks, AllRight, Tied;
  }

  lemma StepKeepsLooks(s: State, step: Step)
    requires Inv(s) && LooksOk(s)
    ensures LooksOk(Apply(s, step))
  {
    hide Inv, InputLooks, AllRight, Tied, PutOn, Landed, Renewed, Waiting, IsStale;
    HasWire(s);
    if Enabled(s, step) {
      match step {
        case QueueInput(frame) => TiedInputs(InputLooks(s.looks), s.inputs, [frame], s.fates);
        case LookAt(size) => LookKeepsLooks(s, size);
        case Sent =>
          LandedKeepsLooks(s, true);
          SentIsLanded(s);
        case Drop(arrived) =>
          if s.flying.Some? {
            LandedKeepsLooks(s, arrived);
          } else {
            NothingLands(s, arrived);
          }
          RenewedKeepsLooks(Landed(s, arrived));
        case _ =>
      }
    }
  }

  lemma HasWire(s: State)
    requires Inv(s)
    ensures s.transport < |s.wire|
  {
  }

  lemma SentIsLanded(s: State)
    requires s.transport < |s.wire| && Enabled(s, Sent)
    ensures Apply(s, Sent) == Landed(s, true)
  {
  }

  lemma NothingLands(s: State, arrived: bool)
    requires s.transport < |s.wire| && s.flying.None?
    ensures Landed(s, arrived) == s
  {
  }

  lemma {:induction false} RunKeepsLooks(s: State, steps: seq<Step>)
    requires Inv(s) && LooksOk(s)
    ensures Inv(Run(s, steps)) && LooksOk(Run(s, steps))
    decreases |steps|
  {
    RunKeepsInv(s, steps);
    hide Inv, LooksOk, Apply;
    if steps != [] {
      StepKeepsInv(s, steps[0]);
      StepKeepsLooks(s, steps[0]);
      RunKeepsLooks(Apply(s, steps[0]), steps[1..]);
    }
  }

  /** Over any run, for every input taken from the queue: it was dropped as stale
      exactly when it is a resize and the terminal had another size at the look;
      otherwise it went out, or was lost, on the transport of that look. */
  lemma {:induction false} StaleExactlyWhen(steps: seq<Step>, i: nat) returns (look: Look)
    ensures Inv(START)
    ensures var s := Run(START, steps);
      i < |s.fates| ==>
        && i < |s.inputs| && look in s.looks && look.item == Input(s.inputs[i])
        && (s.fates[i].Stale? <==>
             s.inputs[i].Resize? && look.size.Some? && look.size.value != (s.inputs[i].cols, s.inputs[i].rows))
        && (!s.fates[i].Stale? ==> s.fates[i].on == look.transport)
  {
    StartIsOk();
    StartLooks();
    RunKeepsLooks(START, steps);
    var s := Run(START, steps);
    look := Look(Reply(0, 0), None, 0, true);
    if i < |s.fates| {
      var k := InputLookAt(s.looks, i);
      look := s.looks[k];
      assert Follows(look, s.inputs[i], s.fates[i]) && IsRight(look);
      hide Inv, LooksOk, InputLooks, Run;
    }
  }

  lemma StartLooks()
    ensures LooksOk(START)
  {
  }

  lemma {:induction false} InputLookAt(looks: seq<Look>, i: nat) returns (k: nat)
    requires i < |InputLooks(looks)|
    ensures k < |looks| && looks[k] == InputLooks(looks)[i]
    decreases |looks|
  {
    var n := |looks| - 1;
    if i < |InputLooks(looks[..n])| {
      k := InputLookAt(looks[..n], i);
    } else {
      k := n;
    }
  }

  /** Over any run every reply looked at is kept exactly when the wrapping counter
      says that its cause is the transport at hand. */
  lemma {:induction false} RepliesKeptExactlyWhen(steps: seq<Step>, k: nat)
    ensures Inv(START)
    ensures var looks: seq<Look> := Run(START, steps).looks;
      k < |looks| && looks[k].item.Reply? ==>
        (looks[k].kept <==> looks[k].item.cause % 0x1_0000_0000_0000_0000 == looks[k].transport % 0x1_0000_0000_0000_0000)
  {
    StartIsOk();
    StartLooks();
    RunKeepsLooks(START, steps);
    hide Inv, InputLooks, Run;
    var looks: seq<Look> := Run(START, steps).looks;
    if k < |looks| {
      assert IsRight(looks[k]);
    }
  }

  /** Over any run: a reply carried by transport `t` was caused on a transport
      the wrapping counter cannot tell from `t`. So the transport that carries it
      is the one that caused it exactly when fewer than 2^64 reconnects went by
      meanwhile. */
  lemma {:induction false} RepliesStayOnTheirTransport(steps: seq<Step>, t: nat, k: nat)
    ensures Inv(START)
    ensures var wire: seq<seq<Item>> := Run(START, steps).wire;
      t < |wire| && k < |wire[t]| && wire[t][k].Reply? ==>
        && wire[t][k].cause <= t
        && wire[t][k].cause % GENERATIONS == t % GENERATIONS
        && (wire[t][k].cause == t <==> t - wire[t][k].cause < GENERATIONS)
  {
    StartIsOk();
    RunKeepsInv(START, steps);
    var wire: seq<seq<Item>> := Run(START, steps).wire;
    if t < |wire| && k < |wire[t]| && wire[t][k].Reply? {
      if t - wire[t][k].cause < GENERATIONS {
        SameResidue(wire[t][k].cause, t);
      }
    }
  }

  lemma SameResidue(a: nat, b: nat)
    requires a <= b && a % GENERATIONS == b % GENERATIONS && b - a < GENERATIONS
    ensures a == b
  {
  }

  // ---- a reply that meets its generation again ----

  function Reconnects(n: nat): seq<Step> {
    if n == 0 then [] else [Drop(false), Reattach] + Reconnects(n - 1)
  }

  /** A reply queued on the first transport and not yet received, `n` reconnects
      later. */
  function Overtaken(n: nat): State {
    State(Pumping, [Reply(0, 0)], None, None, n % GENERATIONS, n, [], [], seq(n + 1, _ => []), [])
  }

  lemma OneReconnect(n: nat)
    ensures |Overtaken(n).wire| == n + 1 && |Apply(Overtaken(n), Drop(false)).wire| == n + 2
    ensures Apply(Apply(Overtaken(n), Drop(false)), Reattach) == Overtaken(n + 1)
  {
    assert (n % GENERATIONS + 1) % GENERATIONS == (n + 1) % GENERATIONS;
    assert Overtaken(n).wire + [[]] == Overtaken(n + 1).wire;
  }

  lemma RunFirst(s: State, step: Step, rest: seq<Step>)
    requires Inv(s)
    ensures Inv(Apply(s, step)) && Run(s, [step] + rest) == Run(Apply(s, step), rest)
  {
    StepKeepsInv(s, step);
    hide Inv, Apply;
    assert ([step] + rest)[1..] == rest;
  }

  lemma RunTwo(s: State, one: Step, two: Step, rest: seq<Step>)
    requires Inv(s)
    ensures Inv(Apply(s, one)) && Inv(Apply(Apply(s, one), two))
    ensures Run(s, [one, two] + rest) == Run(Apply(Apply(s, one), two), rest)
  {
    RunFirst(s, one, [two] + rest);
    hide *;
    RunFirst(Apply(s, one), two, rest);
    assert [one, two] + rest == [one] + ([two] + rest);
  }

  lemma {:induction false} ManyReconnects(m: nat, n: nat, rest: seq<Step>)
    requires Inv(Overtaken(m))
    ensures Inv(Overtaken(m + n))
    ensures Run(Overtaken(m), Reconnects(n) + rest) == Run(Overtaken(m + n), rest)
    decreases n
  {
    hide Inv, Apply, Overtaken;
    if n == 0 {
      assert Reconnects(n) + rest == rest;
    } else {
      assert Reconnects(n) + rest == [Drop(false), Reattach] + (Reconnects(n - 1) + rest);
      RunTwo(Overtaken(m), Drop(false), Reattach, Reconnects(n - 1) + rest);
      OneReconnect(m);
      ManyReconnects(m + 1, n - 1, rest);
    }
  }

  /** 2^64 reconnects after it was queued, a reply goes out on a transport that
      did not cause it. */
  lemma {:induction false} AReplyOnTheWrongTransport() returns (steps: seq<Step>)
    ensures Inv(START)
    ensures var wire: seq<seq<Item>> := Run(START, steps).wire;
      |wire| == GENERATIONS + 1 && wire[GENERATIONS] == [Reply(0, 0)]
  {
    StartIsOk();
    var rest := [Receive, LookAt(None), Sent];
    steps := [QueueReply] + (Reconnects(GENERATIONS) + rest);
    QueuesReply(Reconnects(GENERATIONS) + rest);
    ManyReconnects(0, GENERATIONS, rest);
    GoesOut(GENERATIONS);
  }

  lemma OneReplyQueued()
    ensures |START.wire| == 1 && Apply(START, QueueReply) == Overtaken(0)
  {
    assert Overtaken(0).wire == [[]];
  }

  lemma QueuesReply(rest: seq<Step>)
    ensures Inv(START) && Inv(Overtaken(0)) && Run(START, [QueueReply] + rest) == Run(Overtaken(0), rest)
  {
    StartIsOk();
    StepKeepsInv(START, QueueReply);
    OneReplyQueued();
    hide Inv, Apply, Overtaken;
    assert ([QueueReply] + rest)[1..] == rest;
  }

  /** The reply in flight on the transport it does not belong to. */
  function Mistaken(n: nat): State { Overtaken(n).(queue := [], flying := Some(Reply(0, 0)), looks := [Look(Reply(0, 0), None, n, true)]) }

  lemma IsMistaken(n: nat)
    requires n % GENERATIONS == 0
    ensures |Overtaken(n).wire| == n + 1 && |Apply(Overtaken(n), Receive).wire| == n + 1 && |Mistaken(n).wire| == n + 1
    ensures Apply(Apply(Overtaken(n), Receive), LookAt(None)) == Mistaken(n)
  {
  }

  lemma IsPutOn(n: nat)
    ensures |Mistaken(n).wire| == n + 1
    ensures var wire := Apply(Mistaken(n), Sent).wire; |wire| == n + 1 && wire[n] == [Reply(0, 0)]
  {
  }

  lemma RunLast(s: State, step: Step)
    requires Inv(s)
    ensures Run(s, [step]) == Apply(s, step)
  {
    RunFirst(s, step, []);
    assert [step] + [] == [step];
    hide Inv, Apply;
  }

  lemma GoesOut(n: nat)
    requires Inv(Overtaken(n)) && n % GENERATIONS == 0
    ensures var wire := Run(Overtaken(n), [Receive, LookAt(None), Sent]).wire; |wire| == n + 1 && wire[n] == [Reply(0, 0)]
  {
    hide Inv, Apply, Overtaken, Mistaken, Run;
    RunTwo(Overtaken(n), Receive, LookAt(None), [Sent]);
    assert [Receive, LookAt(None)] + [Sent] == [Receive, LookAt(None), Sent];
    IsMistaken(n);
    RunLast(Mistaken(n), Sent);
    IsPutOn(n);
  }
}
