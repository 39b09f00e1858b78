/** The publish/subscribe bridge between the distributed backend (Redis) and
    the subscribers of this process (RedisPubSubBridge.java).

    The backend is abstract: whether a listener registration or a send fails
    is an input of the operation. Subscribers are values of a type `S` chosen
    by the user of the bridge; "invoking" a subscriber is reported to the
    caller as the list of subscribers invoked, in order, and the caller runs
    their effects. */
module PubSub {

  type Channel = string

  /** Everything the bridge holds, plus the calls it made on the backend. */
  datatype BridgeState<S, P> = BridgeState(
    hasTemplate: bool,               // a send template was injected
    hasContainer: bool,              // a listener container was injected
    localSubs: map<Channel, seq<S>>, // local subscribers per channel, in registration order
    redisOk: bool,                   // the backend health flag
    redisSubscribed: set<Channel>,   // channels for which a listener registration was tried
    listening: set<Channel>,         // channels whose listener registration succeeded
    listenerCalls: seq<Channel>,     // every listener registration tried, in order
    sendCalls: seq<(Channel, P)>)    // every send tried, in order

  /** The local subscribers of a channel (none for an unknown channel). */
  function Subscribers<S, P>(st: BridgeState<S, P>, ch: Channel): seq<S> {
    if ch in st.localSubs then st.localSubs[ch] else []
  }

  /** The constructor: healthy exactly when a listener container exists. */
  function Init<S, P>(hasTemplate: bool, hasContainer: bool): BridgeState<S, P> {
    BridgeState(hasTemplate, hasContainer, map[], hasContainer, {}, {}, [], [])
  }

  /** `subscribe(ch, c)`: always append `c` to the channel's local list; then,
      when healthy with a container and the channel is new to
      `redisSubscribed`, register the backend listener once. A failed
      registration marks the backend unhealthy and is not raised; the channel
      stays in `redisSubscribed`. */
  function SubscribeStep<S, P>(st: BridgeState<S, P>, ch: Channel, c: S, listenerFails: bool): BridgeState<S, P> {
    var st1 := st.(localSubs := st.localSubs[ch := Subscribers(st, ch) + [c]]);
    if st.redisOk && st.hasContainer && ch !in st.redisSubscribed then
      st1.(redisSubscribed := st.redisSubscribed + {ch},
           listenerCalls := st.listenerCalls + [ch],
           listening := if listenerFails then st.listening else st.listening + {ch},
           redisOk := !listenerFails)
    else st1
  }

  /** `publish(ch, p)`: when healthy with a template, try the backend send (a
      failure marks the backend unhealthy and is not raised); then, in every
      case, invoke the channel's local subscribers in order. The second
      component is the list of subscribers invoked. */
  function PublishStep<S, P>(st: BridgeState<S, P>, ch: Channel, p: P, sendFails: bool): (BridgeState<S, P>, seq<S>) {
    var st1 :=
      if st.redisOk && st.hasTemplate then
        st.(sendCalls := st.sendCalls + [(ch, p)], redisOk := !sendFails)
      else st;
    (st1, Subscribers(st, ch))
  }

  /** The container's error handler: the backend becomes unhealthy. */
  function ListenerErrorStep<S, P>(st: BridgeState<S, P>): BridgeState<S, P> {
    st.(redisOk := false)
  }

  /** A message arriving from the backend: the registered listener fans it
      out locally; a channel without a listener delivers nothing. */
  function BackendDelivery<S, P>(st: BridgeState<S, P>, ch: Channel): seq<S> {
    if ch in st.listening then Subscribers(st, ch) else []
  }

  /** The invariant every reachable bridge keeps. */
  ghost predicate Invariant<S, P>(st: BridgeState<S, P>) {
    && (st.redisOk ==> st.hasContainer)
    && (forall i, j | 0 <= i < j < |st.listenerCalls| :: st.listenerCalls[i] != st.listenerCalls[j])
    && (forall ch :: ch in st.redisSubscribed <==> ch in st.listenerCalls)
    && st.listening <= st.redisSubscribed
  }

  /** An operation on the bridge, to reason about sequences of them. */
  datatype Op<S, P> =
    | Subscribe(ch: Channel, c: S, listenerFails: bool)
    | Publish(ch: Channel, p: P, sendFails: bool)
    | ListenerError

  function Step<S, P>(st: BridgeState<S, P>, op: Op<S, P>): BridgeState<S, P> {
    match op
    case Subscribe(ch, c, f) => SubscribeStep(st, ch, c, f)
    case Publish(ch, p, f) => PublishStep(st, ch, p, f).0
    case ListenerError => ListenerErrorStep(st)
  }

  function Apply<S, P>(st: BridgeState<S, P>, ops: seq<Op<S, P>>): BridgeState<S, P>
    decreases |ops|
  {
    if ops == [] then st else Apply(Step(st, ops[0]), ops[1..])
  }

  lemma InitInvariant<S, P>(hasTemplate: bool, hasContainer: bool)
    ensures Invariant(Init<S, P>(hasTemplate, hasContainer))
    ensures Init<S, P>(hasTemplate, hasContainer).redisOk == hasContainer
  {
  }

  lemma StepInvariant<S, P>(st: BridgeState<S, P>, op: Op<S, P>)
    requires Invariant(st)
    ensures Invariant(Step(st, op))
  {
    if op.Subscribe? && st.redisOk && st.hasContainer && op.ch !in st.redisSubscribed {
      var st' := Step(st, op);
      assert st'.listenerCalls == st.listenerCalls + [op.ch];
      forall i, j | 0 <= i < j < |st'.listenerCalls|
        ensures st'.listenerCalls[i] != st'.listenerCalls[j]
      {
        if j == |st.listenerCalls| {
          assert st.listenerCalls[i] in st.listenerCalls;
        }
      }
    }
  }

  /** Every sequence of operations keeps the invariant; in particular the
      backend listener of a channel is registered at most once however many
      times the channel is subscribed. */
  lemma {:induction false} ApplyInvariant<S, P>(st: BridgeState<S, P>, ops: seq<Op<S, P>>)
    requires Invariant(st)
    ensures Invariant(Apply(st, ops))
    decreases |ops|
  {
    if ops != [] {
      StepInvariant(st, ops[0]);
      ApplyInvariant(Step(st, ops[0]), ops[1..]);
    }
  }

  /** Once the backend is marked unhealthy no operation marks it healthy again. */
  lemma {:induction false} HealthNeverRecovers<S, P>(st: BridgeState<S, P>, ops: seq<Op<S, P>>)
    requires !st.redisOk
    ensures !Apply(st, ops).redisOk
    decreases |ops|
  {
    if ops != [] {
      HealthNeverRecovers(Step(st, ops[0]), ops[1..]);
    }
  }

  /** Subscribing N consumers to one channel, whatever the backend does, puts
      all N at the end of the channel's local list in order, and registers
      the backend listener for that channel at most once. */
  lemma {:induction false} SubscribeMany<S, P>(st: BridgeState<S, P>, ch: Channel, cs: seq<S>, fails: seq<bool>)
    requires Invariant(st) && |fails| == |cs|
    ensures Subscribers(SubscribeAll(st, ch, cs, fails), ch) == Subscribers(st, ch) + cs
    ensures Invariant(SubscribeAll(st, ch, cs, fails))
    ensures |SubscribeAll(st, ch, cs, fails).listenerCalls| <= |st.listenerCalls| + 1
    ensures ch in st.redisSubscribed ==> SubscribeAll(st, ch, cs, fails).listenerCalls == st.listenerCalls
    ensures !st.redisOk ==> !SubscribeAll(st, ch, cs, fails).redisOk
    ensures !st.redisOk ==> SubscribeAll(st, ch, cs, fails).listenerCalls == st.listenerCalls
    ensures SubscribeAll(st, ch, cs, fails).sendCalls == st.sendCalls
    decreases |cs|
  {
    if cs != [] {
      var st1 := SubscribeStep(st, ch, cs[0], fails[0]);
      StepInvariant(st, Subscribe(ch, cs[0], fails[0]));
      SubscribeMany(st1, ch, cs[1..], fails[1..]);
      assert Subscribers(st1, ch) + cs[1..] == Subscribers(st, ch) + cs;
      assert ch in st1.redisSubscribed || st1.listenerCalls == st.listenerCalls;
    }
  }

  function SubscribeAll<S, P>(st: BridgeState<S, P>, ch: Channel, cs: seq<S>, fails: seq<bool>): BridgeState<S, P>
    requires |fails| == |cs|
    decreases |cs|
  {
    if cs == [] then st else SubscribeAll(SubscribeStep(st, ch, cs[0], fails[0]), ch, cs[1..], fails[1..])
  }

  /** Local delivery is the liveness guarantee: whether the backend is
      absent, healthy or failing, `publish` invokes every local subscriber of
      the channel once, in registration order, and never fails; a send is
      tried only when the backend is healthy and a template exists, and a
      failed send marks it unhealthy. */
  lemma PublishAlwaysDeliversLocally<S, P>(st: BridgeState<S, P>, ch: Channel, p: P, sendFails: bool)
    ensures PublishStep(st, ch, p, sendFails).1 == Subscribers(st, ch)
    ensures PublishStep(st, ch, p, sendFails).0.localSubs == st.localSubs
    ensures PublishStep(st, ch, p, sendFails).0.sendCalls
         == st.sendCalls + (if st.redisOk && st.hasTemplate then [(ch, p)] else [])
    ensures PublishStep(st, ch, p, sendFails).0.redisOk == (st.redisOk && !(st.hasTemplate && sendFails))
  {
  }

  /** Local-only mode (no container, so never healthy): every subscriber
      registered before a publish is invoked by it, and the backend is never
      called. */
  lemma LocalOnlyDelivery<S, P>(hasTemplate: bool, ch: Channel, cs: seq<S>, fails: seq<bool>, p: P, sendFails: bool)
    requires |fails| == |cs|
    ensures var st := SubscribeAll(Init<S, P>(hasTemplate, false), ch, cs, fails);
      && PublishStep(st, ch, p, sendFails).1 == cs
      && PublishStep(st, ch, p, sendFails).0.sendCalls == []
      && PublishStep(st, ch, p, sendFails).0.listenerCalls == []
  {
    var st0 := Init<S, P>(hasTemplate, false);
    SubscribeMany(st0, ch, cs, fails);
  }

  /** The bridge object: the subscriber table, the health flag and the set
      of backend-subscribed channels change in place. */
  class PubSubBridge<S, P> {
    const hasTemplate: bool
    const hasContainer: bool
    var localSubs: map<Channel, seq<S>>
    var redisOk: bool
    var redisSubscribed: set<Channel>
    var listening: set<Channel>
    var listenerCalls: seq<Channel>
    var sendCalls: seq<(Channel, P)>

    function State(): BridgeState<S, P>
      reads this
    {
      BridgeState(hasTemplate, hasContainer, localSubs, redisOk, redisSubscribed, listening, listenerCalls, sendCalls)
    }

    ghost predicate Valid()
      reads this
    {
      Invariant(State())
    }

    constructor (hasTemplate: bool, hasContainer: bool)
      ensures Valid() && State() == Init(hasTemplate, hasContainer)
    {
      this.hasTemplate := hasTemplate;
      this.hasContainer := hasContainer;
      localSubs := map[];
      redisOk := hasContainer;
      redisSubscribed := {};
      listening := {};
      listenerCalls := [];
      sendCalls := [];
    }

    method Subscribe(ch: Channel, c: S, listenerFails: bool)
      requires Valid()
      modifies this
      ensures Valid() && State() == SubscribeStep(old(State()), ch, c, listenerFails)
    {
      StepInvariant(State(), Op<S, P>.Subscribe(ch, c, listenerFails));
      var list := if ch in localSubs then localSubs[ch] else [];
      localSubs := localSubs[ch := list + [c]];
      if redisOk && hasContainer && ch !in redisSubscribed {
        redisSubscribed := redisSubscribed + {ch};
        listenerCalls := listenerCalls + [ch];
        if listenerFails {
          redisOk := false;
        } else {
          listening := listening + {ch};
        }
      }
    }

    /** `publish`; `invoked` lists the local subscribers run, in order. */
    method Publish(ch: Channel, p: P, sendFails: bool, throwing: S -> bool) returns (invoked: seq<S>, failed: seq<S>)
      requires Valid()
      modifies this
      ensures Valid() && (State(), invoked) == PublishStep(old(State()), ch, p, sendFails)
      ensures failed == Throwing(invoked, throwing)
    {
      StepInvariant(State(), Op<S, P>.Publish(ch, p, sendFails));
      if redisOk && hasTemplate {
        sendCalls := sendCalls + [(ch, p)];
        if sendFails {
          redisOk := false;
        }
      }
      invoked, failed := FanoutLocal(ch, throwing);
    }

    /** `fanoutLocal`: run each local subscriber of the channel in turn. A
        subscriber that throws (`throwing`) is logged in `failed`, and
        delivery goes on with the next one. */
    method FanoutLocal(ch: Channel, throwing: S -> bool) returns (invoked: seq<S>, failed: seq<S>)
      ensures invoked == Subscribers(State(), ch)
      ensures failed == Throwing(invoked, throwing)
    {
      var list := if ch in localSubs then localSubs[ch] else [];
      invoked, failed := [], [];
      var i := 0;
      while i < |list|
        invariant 0 <= i <= |list|
        invariant invoked == list[..i]
        invariant failed == Throwing(invoked, throwing)
      {
        var c := list[i];
        invoked := invoked + [c];
        if throwing(c) {
          failed := failed + [c];
        }
        ThrowingSnoc(list[..i], c, throwing);
        assert list[..i + 1] == list[..i] + [c];
        i := i + 1;
      }
    }

    /** The container's error handler. */
    method OnListenerError()
      requires Valid()
      modifies this
      ensures Valid() && State() == ListenerErrorStep(old(State()))
    {
      redisOk := false;
    }

    /** The backend listener of a channel receiving a message. */
    method OnBackendMessage(ch: Channel, throwing: S -> bool) returns (invoked: seq<S>, failed: seq<S>)
      ensures invoked == BackendDelivery(State(), ch)
      ensures failed == Throwing(invoked, throwing)
    {
      if ch in listening {
        invoked, failed := FanoutLocal(ch, throwing);
      } else {
        invoked, failed := [], [];
      }
    }
  }

  /** The subscribers of a list that throw, in order. */
  function Throwing<S>(list: seq<S>, throwing: S -> bool): seq<S>
    decreases |list|
  {
    if list == [] then []
    else (if throwing(list[0]) then [list[0]] else []) + Throwing(list[1..], throwing)
  }

  lemma {:induction false} ThrowingSnoc<S>(list: seq<S>, c: S, throwing: S -> bool)
    ensures Throwing(list + [c], throwing) == Throwing(list, throwing) + (if throwing(c) then [c] else [])
    decreases |list|
  {
    if list == [] {
      assert list + [c] == [c];
    } else {
      assert (list + [c])[1..] == list[1..] + [c];
      ThrowingSnoc(list[1..], c, throwing);
    }
  }
}
