/**
 Network monitor of network/monitor.go: a state under a read-write lock and listeners with
 channels of ten messages.  updateState writes the state, releases the lock, and then offers
 the new state to every listener under the read lock, skipping full channels.
 */
module Monitor {
  import opened Wrappers

  datatype NetState = Unknown | Up | Down | Degraded

  const BUFFER := 10

  // sent: everything ever put into the channel, of which `consumed` was received;
  // since: number of notify passes begun before Subscribe.
  datatype Listener = Listener(sent: seq<NetState>, consumed: nat, dropped: nat, since: nat)

  /** Where a goroutine stands in updateState. */
  datatype Updater = Idle | Written(announced: NetState) | Notifying(announced: NetState, next: nat)

  // passes: the states whose notify pass has begun, in order.
  datatype Network = Network(state: NetState, listeners: seq<Listener>, updaters: seq<Updater>,
                             notifyOnChange: bool, passes: seq<NetState>)

  datatype Step =
    | Begin(u: nat, announced: NetState)
    | StartPass(u: nat)
    | Offer(u: nat)
    | EndPass(u: nat)
    | Subscribe
    | Receive(l: nat)

  function Initial(updaters: nat, notifyOnChange: bool): Network {
    Network(Unknown, [], seq(updaters, _ => Idle), notifyOnChange, [])
  }

  /** Nobody holds the read lock, so the write lock can be taken. */
  predicate NoPass(s: Network) { forall u :: 0 <= u < |s.updaters| ==> !s.updaters[u].Notifying? }

  predicate AllIdle(s: Network) { forall u :: 0 <= u < |s.updaters| ==> s.updaters[u].Idle? }

  predicate Enabled(s: Network, e: Step) {
    match e
    case Begin(u, _) => u < |s.updaters| && s.updaters[u].Idle? && NoPass(s)
    case StartPass(u) => u < |s.updaters| && s.updaters[u].Written?
    case Offer(u) => u < |s.updaters| && s.updaters[u].Notifying? && s.updaters[u].next < |s.listeners|
    case EndPass(u) => u < |s.updaters| && s.updaters[u].Notifying? && s.updaters[u].next >= |s.listeners|
    case Subscribe => NoPass(s)
    case Receive(l) => l < |s.listeners| && s.listeners[l].consumed < |s.listeners[l].sent|
  }

  function Offered(l: Listener, x: NetState): Listener {
    if |l.sent| < l.consumed + BUFFER then l.(sent := l.sent + [x]) else l.(dropped := l.dropped + 1)
  }

  function Next(s: Network, e: Step): Network
    requires Enabled(s, e)
  {
    match e
    case Begin(u, x) =>
      s.(state := x,
         updaters := if !s.notifyOnChange || s.state != x then s.updaters[u := Written(x)] else s.updaters)
    case StartPass(u) =>
      var x := s.updaters[u].announced;
      s.(updaters := s.updaters[u := Notifying(x, 0)], passes := s.passes + [x])
    case Offer(u) =>
      var x, i := s.updaters[u].announced, s.updaters[u].next;
      s.(listeners := s.listeners[i := Offered(s.listeners[i], x)], updaters := s.updaters[u := Notifying(x, i + 1)])
    case EndPass(u) => s.(updaters := s.updaters[u := Idle])
    case Subscribe => s.(listeners := s.listeners + [Listener([], 0, 0, |s.passes|)])
    case Receive(l) => s.(listeners := s.listeners[l := s.listeners[l].(consumed := s.listeners[l].consumed + 1)])
  }

  ghost predicate Leads(s: Network, es: seq<Step>, t: Network)
    decreases |es|
  {
    if es == [] then s == t else Enabled(s, es[0]) && Leads(Next(s, es[0]), es[1..], t)
  }

  /** updateState calls do not overlap: one begins only when the last has finished. */
  predicate Serial(s: Network, e: Step) { e.Begin? ==> AllIdle(s) }

  ghost predicate SerialLeads(s: Network, es: seq<Step>, t: Network)
    decreases |es|
  {
    if es == [] then s == t
    else Enabled(s, es[0]) && Serial(s, es[0]) && SerialLeads(Next(s, es[0]), es[1..], t)
  }

  // ---------------------------------------------------------------- every interleaving: buffers

  ghost predicate Bounded(s: Network) {
    forall i :: 0 <= i < |s.listeners| ==>
      var l := s.listeners[i]; l.consumed <= |l.sent| <= l.consumed + BUFFER
  }

  /** However updates overlap, no channel ever holds more than ten messages. */
  lemma {:induction false} BuffersBounded(s: Network, es: seq<Step>, t: Network)
    requires Bounded(s) && Leads(s, es, t)
    ensures Bounded(t)
    decreases |es|
  {
    if es != [] {
      BuffersBounded(Next(s, es[0]), es[1..], t);
    }
  }

  /** Messages that listener i was sent and has not received. */
  function Unread(s: Network, i: nat): int
    requires i < |s.listeners|
  {
    |s.listeners[i].sent| - s.listeners[i].consumed
  }

  /** A message is dropped exactly when ten are unread, and is otherwise the last one sent. */
  lemma OfferMeans(s: Network, u: nat)
    requires Bounded(s) && Enabled(s, Offer(u))
    ensures var t, i, x := Next(s, Offer(u)), s.updaters[u].next, s.updaters[u].announced;
      && |t.listeners| == |s.listeners| && t.updaters == s.updaters[u := Notifying(x, i + 1)]
      && (forall j :: 0 <= j < |s.listeners| && j != i ==> t.listeners[j] == s.listeners[j])
      && t.listeners[i].consumed == s.listeners[i].consumed
      && (Unread(s, i) == 10 <==> t.listeners[i].sent == s.listeners[i].sent)
      && (Unread(s, i) == 10 <==> t.listeners[i].dropped == s.listeners[i].dropped + 1)
      && (Unread(s, i) < 10 ==>
            t.listeners[i].sent == s.listeners[i].sent + [x] && t.listeners[i].dropped == s.listeners[i].dropped)
  {
    var l := s.listeners[s.updaters[u].next];
    assert l.sent != l.sent + [s.updaters[u].announced];
  }

  lemma DropStep(s: Network, e: Step, i: nat)
    requires Bounded(s) && Enabled(s, e) && i < |s.listeners|
    ensures var t := Next(s, e);
      i < |t.listeners| && Bounded(t) && (t.listeners[i].dropped > s.listeners[i].dropped ==> Unread(s, i) == 10)
  {
    if e.Offer? {
      OfferMeans(s, e.u);
    }
  }

  /** In every run, a listener that loses a message had ten unread ones at some moment. */
  lemma {:induction false} DropNeedsTen(s: Network, es: seq<Step>, t: Network, i: nat) returns (j: nat, v: Network)
    requires Bounded(s) && Leads(s, es, t) && i < |s.listeners|
    requires i < |t.listeners| && t.listeners[i].dropped > s.listeners[i].dropped
    ensures j <= |es| && Leads(s, es[..j], v) && i < |v.listeners| && Unread(v, i) == 10
    decreases |es|
  {
    hide Enabled, Next, Bounded;
    var u := Next(s, es[0]);
    DropStep(s, es[0], i);
    if u.listeners[i].dropped > s.listeners[i].dropped {
      j, v := 0, s;
    } else {
      j, v := DropNeedsTen(u, es[1..], t, i);
      assert es[..j + 1][1..] == es[1..][..j];
      j := j + 1;
    }
  }

  // ---------------------------------------------------------------- serialised updates: streams

  /** A running pass has not reached listener i yet. */
  ghost predicate Awaits(s: Network, i: nat) {
    exists u :: 0 <= u < |s.updaters| && s.updaters[u].Notifying? && s.updaters[u].next <= i
  }

  /** Number of passes that have already reached listener i. */
  ghost function Due(s: Network, i: nat): int { |s.passes| - if Awaits(s, i) then 1 else 0 }

  /** Listener i was offered exactly the passes since its Subscribe, and got all that were not dropped. */
  ghost predicate Stream(s: Network, i: nat)
    requires i < |s.listeners|
  {
    var l := s.listeners[i];
    && l.since <= Due(s, i) <= |s.passes|
    && |l.sent| + l.dropped == Due(s, i) - l.since
    && (l.dropped == 0 ==> l.sent == s.passes[l.since..Due(s, i)])
  }

  function LastPass(s: Network): NetState {
    if s.passes == [] then Unknown else s.passes[|s.passes| - 1]
  }

  ghost predicate OneActive(s: Network) {
    forall u, v :: 0 <= u < |s.updaters| && 0 <= v < |s.updaters| ==>
      !s.updaters[u].Idle? && !s.updaters[v].Idle? ==> u == v
  }

  /** What the active updater, if any, knows. */
  ghost predicate Tracks(s: Network) {
    && (AllIdle(s) ==> s.state == LastPass(s))
    && (forall u :: 0 <= u < |s.updaters| ==>
          match s.updaters[u]
          case Idle => true
          case Written(x) => s.state == x && (s.notifyOnChange ==> x != LastPass(s))
          case Notifying(x, _) => s.state == x == LastPass(s) && s.passes != [])
  }

  ghost predicate StutterFree(xs: seq<NetState>) {
    && (xs != [] ==> xs[0] != Unknown)
    && forall k :: 0 <= k < |xs| - 1 ==> xs[k] != xs[k + 1]
  }

  ghost predicate Inv(s: Network) {
    && OneActive(s) && Tracks(s) && Bounded(s)
    && (s.notifyOnChange ==> StutterFree(s.passes))
    && (forall i :: 0 <= i < |s.listeners| ==> Stream(s, i))
  }

  lemma StreamsBegin(s: Network, u: nat, x: NetState)
    requires Inv(s) && Enabled(s, Begin(u, x)) && AllIdle(s)
    ensures Inv(Next(s, Begin(u, x)))
  {
    var t := Next(s, Begin(u, x));
    forall i | 0 <= i < |t.listeners| ensures Stream(t, i) {
      assert Stream(s, i) && !Awaits(s, i) && !Awaits(t, i);
    }
    assert !AllIdle(t) || x == s.state by {
      if t.updaters[u] != Idle {
        assert !t.updaters[u].Idle?;
      }
    }
  }

  lemma StreamsStart(s: Network, u: nat)
    requires Inv(s) && Enabled(s, StartPass(u))
    ensures Inv(Next(s, StartPass(u)))
  {
    var t := Next(s, StartPass(u));
    assert t.updaters[u] == Notifying(s.updaters[u].announced, 0);
    forall i | 0 <= i < |t.listeners| ensures Stream(t, i) {
      assert Stream(s, i) && !Awaits(s, i) && Awaits(t, i);
      assert s.passes[s.listeners[i].since..] == t.passes[s.listeners[i].since..|s.passes|];
    }
    assert LastPass(t) == s.updaters[u].announced;
  }

  lemma OfferAwaits(s: Network, u: nat, i: nat)
    requires OneActive(s) && Enabled(s, Offer(u))
    ensures Awaits(s, i) <==> s.updaters[u].next <= i
    ensures Awaits(Next(s, Offer(u)), i) <==> s.updaters[u].next < i
  {
    var t := Next(s, Offer(u));
    assert t.updaters[u].next == s.updaters[u].next + 1;
  }

  lemma OfferStream(s: Network, u: nat, i: nat)
    requires OneActive(s) && Tracks(s) && Enabled(s, Offer(u)) && i < |s.listeners| && Stream(s, i)
    ensures Stream(Next(s, Offer(u)), i)
  {
    OfferAwaits(s, u, i);
    hide Awaits, OneActive;
    var from, n := s.listeners[i].since, |s.passes|;
    if i == s.updaters[u].next {
      assert from <= n - 1 && s.passes[n - 1] == s.updaters[u].announced;
      assert s.passes[from..n] == s.passes[from..n - 1] + [s.updaters[u].announced];
    }
  }

  lemma StreamsOffer(s: Network, u: nat)
    requires Inv(s) && Enabled(s, Offer(u))
    ensures Inv(Next(s, Offer(u)))
  {
    hide Stream;
    var t := Next(s, Offer(u));
    forall i | 0 <= i < |t.listeners| ensures Stream(t, i) {
      OfferStream(s, u, i);
    }
  }

  lemma StreamsEnd(s: Network, u: nat)
    requires Inv(s) && Enabled(s, EndPass(u))
    ensures Inv(Next(s, EndPass(u)))
  {
    var t := Next(s, EndPass(u));
    forall i | 0 <= i < |t.listeners| ensures Stream(t, i) {
      assert Stream(s, i) && !Awaits(s, i) && !Awaits(t, i);
    }
  }

  lemma StreamsSubscribe(s: Network)
    requires Inv(s) && Enabled(s, Subscribe)
    ensures Inv(Next(s, Subscribe))
  {
    var t := Next(s, Subscribe);
    forall i | 0 <= i < |t.listeners| ensures Stream(t, i) {
      assert !Awaits(s, i) && !Awaits(t, i);
      assert i < |s.listeners| ==> Stream(s, i);
    }
  }

  lemma StreamsReceive(s: Network, l: nat)
    requires Inv(s) && Enabled(s, Receive(l))
    ensures Inv(Next(s, Receive(l)))
  {
    var t := Next(s, Receive(l));
    forall i | 0 <= i < |t.listeners| ensures Stream(t, i) {
      assert Stream(s, i);
      assert Awaits(s, i) <==> Awaits(t, i);
    }
  }

  lemma InvStep(s: Network, e: Step)
    requires Inv(s) && Enabled(s, e) && Serial(s, e)
    ensures Inv(Next(s, e)) && Next(s, e).notifyOnChange == s.notifyOnChange
  {
    match e {
      case Begin(u, x) => StreamsBegin(s, u, x);
      case StartPass(u) => StreamsStart(s, u);
      case Offer(u) => StreamsOffer(s, u);
      case EndPass(u) => StreamsEnd(s, u);
      case Subscribe => StreamsSubscribe(s);
      case Receive(l) => StreamsReceive(s, l);
    }
    hide Inv;
  }

  lemma {:induction false} SerialRunKeeps(s: Network, es: seq<Step>, t: Network)
    requires Inv(s) && SerialLeads(s, es, t)
    ensures Inv(t) && t.notifyOnChange == s.notifyOnChange
    decreases |es|
  {
    hide Inv, Enabled, Next, Serial;
    if es != [] {
      InvStep(s, es[0]);
      SerialRunKeeps(Next(s, es[0]), es[1..], t);
    }
  }

  /**
   With serialised updates, whenever no update is in flight: a listener without a dropped
   send has been sent exactly the passes since its Subscribe, its last message is the
   current state, and with notifyOnChange no two neighbouring messages are equal.
   */
  lemma ListenerStream(k: nat, notifyOnChange: bool, es: seq<Step>, t: Network, i: nat)
    requires SerialLeads(Initial(k, notifyOnChange), es, t) && AllIdle(t)
    requires i < |t.listeners| && t.listeners[i].dropped == 0
    ensures var l := t.listeners[i];
      && l.since <= |t.passes| && l.sent == t.passes[l.since..]
      && (l.sent != [] ==> l.sent[|l.sent| - 1] == t.state)
      && (notifyOnChange ==> forall j :: 0 <= j < |l.sent| - 1 ==> l.sent[j] != l.sent[j + 1])
      && |l.sent| - l.consumed <= BUFFER
  {
    SerialRunKeeps(Initial(k, notifyOnChange), es, t);
    assert Stream(t, i) && !Awaits(t, i);
  }

  ghost predicate Reaches(s: Network, t: Network) { exists es :: Leads(s, es, t) }

  lemma {:induction false} LeadsAppend(s: Network, es: seq<Step>, t: Network, e: Step)
    requires Leads(s, es, t) && Enabled(t, e)
    ensures Leads(s, es + [e], Next(t, e))
    decreases |es|
  {
    hide Enabled, Next;
    if es == [] {
      assert es + [e] == [e];
      assert Leads(Next(t, e), [e][1..], Next(t, e));
    } else {
      LeadsAppend(Next(s, es[0]), es[1..], t, e);
      assert (es + [e])[1..] == es[1..] + [e];
    }
  }

  lemma ReachStep(s: Network, t: Network, e: Step)
    requires (s == t || Reaches(s, t)) && Enabled(t, e)
    ensures Reaches(s, Next(t, e))
  {
    hide Enabled, Next;
    assert Leads(s, [], s);
    var es :| Leads(s, es, t);
    LeadsAppend(s, es, t, e);
  }

  /** A run of the two updaters 0 and 1 among k. */
  function Two(k: nat, a: Updater, b: Updater): (r: seq<Updater>)
    requires k >= 2
    ensures |r| == k && r[0] == a && r[1] == b
    ensures forall u :: 2 <= u < k ==> r[u] == Idle
  {
    [a, b] + seq(k - 2, _ => Idle)
  }

  lemma TwoMoves(k: nat, a: Updater, b: Updater, c: Updater)
    requires k >= 2
    ensures Two(k, a, b)[0 := c] == Two(k, c, b) && Two(k, a, b)[1 := c] == Two(k, a, c)
  {
  }

  /** Up was written first, but Down was written and announced before Up is. */
  function Overtaken(k: nat, notifyOnChange: bool): Network
    requires k >= 2
  {
    Network(Down, [Listener([Down], 0, 0, 0)], Two(k, Written(Up), Idle), notifyOnChange, [Down])
  }

  lemma BothWritten(k: nat, notifyOnChange: bool) returns (s: Network)
    requires k >= 2
    ensures s == Network(Down, [Listener([], 0, 0, 0)], Two(k, Written(Up), Written(Down)), notifyOnChange, [])
    ensures Reaches(Initial(k, notifyOnChange), s)
  {
    hide Reaches;
    var s0 := Initial(k, notifyOnChange);
    assert s0.updaters == Two(k, Idle, Idle);
    hide Two;
    ReachStep(s0, s0, Subscribe);
    s := Next(s0, Subscribe);
    ReachStep(s0, s, Begin(0, Up));
    TwoMoves(k, Idle, Idle, Written(Up));
    s := Next(s, Begin(0, Up));
    ReachStep(s0, s, Begin(1, Down));
    TwoMoves(k, Written(Up), Idle, Written(Down));
    s := Next(s, Begin(1, Down));
  }

  lemma OvertakenReached(k: nat, notifyOnChange: bool)
    requires k >= 2
    ensures Reaches(Initial(k, notifyOnChange), Overtaken(k, notifyOnChange))
  {
    hide Reaches, Two;
    var s0 := Initial(k, notifyOnChange);
    var s := BothWritten(k, notifyOnChange);
    TwoMoves(k, Written(Up), Written(Down), Notifying(Down, 0));
    TwoMoves(k, Written(Up), Notifying(Down, 0), Notifying(Down, 1));
    TwoMoves(k, Written(Up), Notifying(Down, 1), Idle);
    ReachStep(s0, s, StartPass(1));
    s := Next(s, StartPass(1));
    ReachStep(s0, s, Offer(1));
    s := Next(s, Offer(1));
    assert s.listeners[0].sent == [Down];
    assert s.listeners == [Listener([Down], 0, 0, 0)];
    ReachStep(s0, s, EndPass(1));
    assert Next(s, EndPass(1)) == Overtaken(k, notifyOnChange);
  }

  /** With two goroutines that may update, the last message can contradict the state. */
  lemma OverlapBreaksOrder(k: nat, notifyOnChange: bool)
    requires k >= 2
    ensures exists es, t ::
      && Leads(Initial(k, notifyOnChange), es, t) && AllIdle(t)
      && t.state == Down && t.listeners == [Listener([Down, Up], 0, 0, 0)]
  {
    hide Reaches, Two;
    var s0, s := Initial(k, notifyOnChange), Overtaken(k, notifyOnChange);
    OvertakenReached(k, notifyOnChange);
    TwoMoves(k, Written(Up), Idle, Notifying(Up, 0));
    TwoMoves(k, Notifying(Up, 0), Idle, Notifying(Up, 1));
    TwoMoves(k, Notifying(Up, 1), Idle, Idle);
    ReachStep(s0, s, StartPass(0));
    s := Next(s, StartPass(0));
    ReachStep(s0, s, Offer(0));
    s := Next(s, Offer(0));
    assert s.listeners[0].sent == [Down, Up];
    assert s.listeners == [Listener([Down, Up], 0, 0, 0)];
    ReachStep(s0, s, EndPass(0));
    s := Next(s, EndPass(0));
    ReachesRun(s0, s);
  }

  lemma ReachesRun(s: Network, t: Network)
    requires Reaches(s, t)
    ensures exists es :: Leads(s, es, t)
  {
  }

  /** While a pass runs, holding the read lock, nobody writes the state or subscribes. */
  lemma PassExcludes(s: Network, u: nat, e: Step)
    requires u < |s.updaters| && s.updaters[u].Notifying? && Enabled(s, e)
    ensures !e.Begin? && !e.Subscribe?
    ensures Next(s, e).state == s.state && |Next(s, e).listeners| == |s.listeners|
  {
  }

  /** But passes share the lock: two that were written may run at once. */
  lemma PassesOverlap(s: Network, u: nat, v: nat)
    requires u < |s.updaters| && v < |s.updaters| && u != v && s.updaters[u].Written? && s.updaters[v].Written?
    ensures exists t ::
      && Leads(s, [StartPass(u), StartPass(v)], t)
      && |t.updaters| == |s.updaters| && t.updaters[u].Notifying? && t.updaters[v].Notifying?
  {
    var t := Next(s, StartPass(u));
    var r := Next(t, StartPass(v));
    var es := [StartPass(u), StartPass(v)];
    assert es[1..] == [StartPass(v)] && es[1..][1..] == [];
    assert Leads(r, [], r) && Leads(t, es[1..], r);
  }

  lemma {:induction false} AloneIsSerial(s: Network, es: seq<Step>, t: Network)
    requires |s.updaters| <= 1 && Leads(s, es, t)
    ensures SerialLeads(s, es, t)
    decreases |es|
  {
    if es != [] {
      AloneIsSerial(Next(s, es[0]), es[1..], t);
    }
  }

  /** In every run of k updaters: once none is busy, each complete listener has the state last. */
  ghost predicate OrderKept(k: nat, notifyOnChange: bool) {
    forall es: seq<Step>, t: Network, i: nat ::
      Leads(Initial(k, notifyOnChange), es, t) && AllIdle(t) && i < |t.listeners| ==>
        var l := t.listeners[i];
        l.dropped == 0 && l.sent != [] ==> l.sent[|l.sent| - 1] == t.state
  }

  /** The order of the messages can be relied on exactly when at most one goroutine updates. */
  lemma OrderKeptIff(k: nat, notifyOnChange: bool)
    ensures OrderKept(k, notifyOnChange) <==> k <= 1
  {
    var s := Initial(k, notifyOnChange);
    hide Leads, SerialLeads;
    if k <= 1 {
      forall es: seq<Step>, t: Network, i: nat |
        Leads(s, es, t) && AllIdle(t) && i < |t.listeners| && t.listeners[i].dropped == 0
        ensures t.listeners[i].sent != [] ==> t.listeners[i].sent[|t.listeners[i].sent| - 1] == t.state
      {
        AloneIsSerial(s, es, t);
        ListenerStream(k, notifyOnChange, es, t, i);
      }
    } else {
      OverlapBreaksOrder(k, notifyOnChange);
      var es, t :| Leads(s, es, t) && AllIdle(t) && t.state == Down && t.listeners == [Listener([Down, Up], 0, 0, 0)];
      assert t.listeners[0].sent[1] == Up;
    }
  }

  // ---------------------------------------------------------------- WaitForNetwork

  /**
   A waiter that subscribes in state s is woken: in every run, however updates overlap,
   whenever none is in flight and the state is Up, its channel, unless it had to drop a
   message, was sent an Up.
   */
  ghost predicate WaiterWoken(s: Network)
    requires Enabled(s, Subscribe)
  {
    forall es: seq<Step>, t: Network ::
      Leads(Next(s, Subscribe), es, t) && AllIdle(t) && t.state == Up && |s.listeners| < |t.listeners| ==>
        t.listeners[|s.listeners|].dropped == 0 ==> Up in t.listeners[|s.listeners|].sent
  }

  /** Some updateState has written Up and has yet to begin its pass. */
  predicate UpUnannounced(s: Network) { exists u :: 0 <= u < |s.updaters| && s.updaters[u] == Written(Up) }

  /** A running pass of Up has not reached listener i yet. */
  ghost predicate UpOnItsWay(s: Network, i: nat) {
    exists u :: 0 <= u < |s.updaters| && s.updaters[u].Notifying? && s.updaters[u].announced == Up
                && s.updaters[u].next <= i
  }

  /** Listener i was sent an Up or dropped a message, or if the state is Up, an Up is still to reach it. */
  ghost predicate Owed(t: Network, i: nat) {
    && i < |t.listeners|
    && (t.listeners[i].dropped > 0 || Up in t.listeners[i].sent
        || t.state != Up || UpUnannounced(t) || UpOnItsWay(t, i))
  }

  lemma OwedBegin(t: Network, u: nat, x: NetState, i: nat)
    requires Owed(t, i) && Enabled(t, Begin(u, x))
    ensures Owed(Next(t, Begin(u, x)), i)
  {
    var r := Next(t, Begin(u, x));
    if x == Up && r.updaters != t.updaters {
      assert r.updaters[u] == Written(Up);
    } else if v :| 0 <= v < |t.updaters| && t.updaters[v] == Written(Up) {
      assert r.updaters[v] == Written(Up);
    }
  }

  lemma OwedPass(t: Network, e: Step, i: nat)
    requires Owed(t, i) && Enabled(t, e) && (e.StartPass? || e.Offer? || e.EndPass?)
    ensures Owed(Next(t, e), i)
  {
    var r := Next(t, e);
    assert r.updaters[e.u] != t.updaters[e.u];
    if v :| 0 <= v < |t.updaters| && t.updaters[v] == Written(Up) {
      assert v != e.u ==> r.updaters[v] == Written(Up);
      assert v == e.u ==> r.updaters[v] == Notifying(Up, 0);
    } else if v :| 0 <= v < |t.updaters| && t.updaters[v].Notifying? && t.updaters[v].announced == Up
                   && t.updaters[v].next <= i {
      assert v != e.u ==> r.updaters[v] == t.updaters[v];
      assert v == e.u ==> e.Offer? && r.updaters[v] == Notifying(Up, t.updaters[v].next + 1);
      if v == e.u && t.updaters[v].next == i {
        var l := r.listeners[i];
        assert l == Offered(t.listeners[i], Up);
        assert l.dropped > 0 || l.sent[|l.sent| - 1] == Up;
      }
    }
  }

  lemma OwedStep(t: Network, e: Step, i: nat)
    requires Owed(t, i) && Enabled(t, e)
    ensures Owed(Next(t, e), i)
  {
    match e {
      case Begin(u, x) => OwedBegin(t, u, x, i);
      case Subscribe =>
      case Receive(l) =>
      case _ => OwedPass(t, e, i);
    }
  }

  lemma {:induction false} OwedRun(t: Network, es: seq<Step>, r: Network, i: nat)
    requires Owed(t, i) && Leads(t, es, r)
    ensures Owed(r, i)
    decreases |es|
  {
    hide Owed, Enabled, Next;
    if es != [] {
      OwedStep(t, es[0], i);
      OwedRun(Next(t, es[0]), es[1..], r, i);
    }
  }

  /** Listener i has taken all it was sent, and nothing of it was Up or dropped. */
  ghost predicate Unwoken(t: Network, i: nat) {
    && i < |t.listeners|
    && var l := t.listeners[i]; l.dropped == 0 && l.consumed == |l.sent| && Up !in l.sent
  }

  /** A pass of another state than Up, with listener i taking its message at once, leaves it unwoken. */
  lemma {:induction false} OffersLeaveUnwoken(s: Network, u: nat, i: nat) returns (es: seq<Step>, t: Network)
    requires u < |s.updaters| && s.updaters[u].Notifying? && s.updaters[u].announced != Up
    requires s.updaters[u].next <= |s.listeners| && Unwoken(s, i)
    ensures Leads(s, es, t) && t.updaters == s.updaters[u := Idle] && t.state == s.state && Unwoken(t, i)
    decreases |s.listeners| - s.updaters[u].next
  {
    if s.updaters[u].next == |s.listeners| {
      es, t := [EndPass(u)], Next(s, EndPass(u));
      assert Leads(t, [], t) && es[1..] == [];
    } else {
      var v := Next(s, Offer(u));
      var x := s.updaters[u].announced;
      if s.updaters[u].next == i {
        assert v.listeners[i].sent == s.listeners[i].sent + [x];
        var w := Next(v, Receive(i));
        assert w.updaters[u := Idle] == s.updaters[u := Idle];
        assert Unwoken(w, i);
        es, t := OffersLeaveUnwoken(w, u, i);
        hide Unwoken, Leads;
        es := LeadsFirst(v, Receive(i), es, t);
      } else {
        assert v.updaters[u := Idle] == s.updaters[u := Idle];
        assert v.listeners[i] == s.listeners[i];
        es, t := OffersLeaveUnwoken(v, u, i);
      }
      es := LeadsFirst(s, Offer(u), es, t);
    }
  }

  lemma LeadsFirst(s: Network, e: Step, es: seq<Step>, t: Network) returns (all: seq<Step>)
    requires Enabled(s, e) && Leads(Next(s, e), es, t)
    ensures Leads(s, all, t)
  {
    all := [e] + es;
    assert all[1..] == es;
  }

  /** Updates that have written other states than Up can all finish and leave listener i unwoken. */
  lemma {:induction false} DrainUnwoken(s: Network, from: nat, i: nat) returns (es: seq<Step>, t: Network)
    requires from <= |s.updaters| && NoPass(s) && !UpUnannounced(s) && Unwoken(s, i)
    requires forall u :: 0 <= u < from ==> s.updaters[u].Idle?
    ensures Leads(s, es, t) && AllIdle(t) && t.state == s.state && Unwoken(t, i)
    decreases |s.updaters| - from
  {
    if from == |s.updaters| {
      es, t := [], s;
    } else if s.updaters[from].Idle? {
      es, t := DrainUnwoken(s, from + 1, i);
    } else {
      var v := Next(s, StartPass(from));
      assert s.updaters[from] != Written(Up);
      assert v.updaters[from := Idle] == s.updaters[from := Idle];
      var pass, w := OffersLeaveUnwoken(v, from, i);
      pass := LeadsFirst(s, StartPass(from), pass, w);
      StillQuiet(s, w, from);
      hide Leads, Unwoken, UpUnannounced, NoPass;
      es, t := DrainUnwoken(w, from + 1, i);
      LeadsJoin(s, pass, w, es, t);
      es := pass + es;
    }
  }

  lemma StillQuiet(s: Network, w: Network, u: nat)
    requires u < |s.updaters| && NoPass(s) && !UpUnannounced(s) && w.updaters == s.updaters[u := Idle]
    ensures NoPass(w) && !UpUnannounced(w)
  {
    forall v | 0 <= v < |w.updaters|
      ensures w.updaters[v] != Written(Up)
    {
      assert v != u ==> w.updaters[v] == s.updaters[v];
    }
  }

  lemma {:induction false} LeadsJoin(s: Network, es: seq<Step>, t: Network, more: seq<Step>, u: Network)
    requires Leads(s, es, t) && Leads(t, more, u)
    ensures Leads(s, es + more, u)
    decreases |es|
  {
    hide Enabled, Next;
    if es == [] {
      assert es + more == more;
    } else {
      LeadsJoin(Next(s, es[0]), es[1..], t, more, u);
      assert (es + more)[1..] == es[1..] + more;
    }
  }

  /** The network as the waiter's Subscribe leaves it. */
  lemma Subscribed(s: Network)
    requires Enabled(s, Subscribe)
    ensures var t := Next(s, Subscribe);
      && NoPass(t) && Unwoken(t, |s.listeners|) && (UpUnannounced(t) <==> UpUnannounced(s))
      && (s.state != Up || UpUnannounced(s) ==> Owed(t, |s.listeners|))
  {
  }

  lemma OwedMet(t: Network, i: nat)
    requires Owed(t, i) && AllIdle(t) && t.state == Up && t.listeners[i].dropped == 0
    ensures Up in t.listeners[i].sent
  {
  }

  /**
   A subscription guarantees the wake-up, in whatever state it is made and however updates
   overlap, exactly when the state is not Up at that moment or an Up that was written has yet
   to be announced.
   */
  lemma WaiterWokenIff(s: Network)
    requires Enabled(s, Subscribe)
    ensures WaiterWoken(s) <==> s.state != Up || UpUnannounced(s)
  {
    var s', i := Next(s, Subscribe), |s.listeners|;
    Subscribed(s);
    hide Leads, Owed, UpUnannounced, AllIdle, Enabled;
    if s.state != Up || UpUnannounced(s) {
      forall es: seq<Step>, t: Network |
        Leads(s', es, t) && AllIdle(t) && t.state == Up && i < |t.listeners| && t.listeners[i].dropped == 0
        ensures Up in t.listeners[i].sent
      {
        OwedRun(s', es, t, i);
        OwedMet(t, i);
      }
    } else {
      var es, t := DrainUnwoken(s', 0, i);
    }
  }

  /**
   WaitForNetwork checks the state and subscribes in two critical sections.  If the check saw
   another state than Up and no update begins in the gap, the waiter is woken.
   */
  lemma QuietGapIsSafe(c: Network, gap: seq<Step>, s: Network)
    requires c.state != Up && Leads(c, gap, s) && Enabled(s, Subscribe)
    requires forall j :: 0 <= j < |gap| ==> !gap[j].Begin?
    ensures WaiterWoken(s)
  {
    hide Enabled, WaiterWoken;
    QuietKeepsState(c, gap, s);
    WaiterWokenIff(s);
  }

  lemma {:induction false} QuietKeepsState(c: Network, gap: seq<Step>, s: Network)
    requires Leads(c, gap, s)
    requires forall j :: 0 <= j < |gap| ==> !gap[j].Begin?
    ensures s.state == c.state
    decreases |gap|
  {
    if gap != [] {
      QuietKeepsState(Next(c, gap[0]), gap[1..], s);
    }
  }

  /**
   A whole update in the gap loses the wake-up: the waiter saw another state, and the network
   is up, but nothing will tell it.
   */
  lemma LostWakeup(c: Network)
    requires c.updaters != [] && AllIdle(c) && c.state != Up
    ensures exists gap, s ::
      && SerialLeads(c, gap, s) && Enabled(s, Subscribe) && s.state == Up && AllIdle(s) && !WaiterWoken(s)
  {
    var s := Updated(c, Up);
    var gap := WholeUpdate(c, Up);
    WaiterWokenIff(s);
  }

  /** Down was written before Up, but its pass is still to come when that of Up is over. */
  function UpFirst(k: nat, notifyOnChange: bool): Network
    requires k >= 2
  {
    Network(Up, [], Two(k, Idle, Written(Down)), notifyOnChange, [Up])
  }

  lemma UpFirstReached(k: nat, notifyOnChange: bool)
    requires k >= 2
    ensures Reaches(Initial(k, notifyOnChange), UpFirst(k, notifyOnChange))
  {
    hide Reaches;
    var s0 := Initial(k, notifyOnChange);
    assert s0.updaters == Two(k, Idle, Idle);
    hide Two;
    TwoMoves(k, Idle, Idle, Written(Down));
    TwoMoves(k, Idle, Written(Down), Written(Up));
    TwoMoves(k, Written(Up), Written(Down), Notifying(Up, 0));
    TwoMoves(k, Notifying(Up, 0), Written(Down), Idle);
    ReachStep(s0, s0, Begin(1, Down));
    var s := Next(s0, Begin(1, Down));
    ReachStep(s0, s, Begin(0, Up));
    s := Next(s, Begin(0, Up));
    ReachStep(s0, s, StartPass(0));
    s := Next(s, StartPass(0));
    ReachStep(s0, s, EndPass(0));
    assert Next(s, EndPass(0)) == UpFirst(k, notifyOnChange);
  }

  /**
   An update under way is not enough.  With two goroutines that update, a waiter can
   subscribe while the state is Up and a pass is still to come, and find only Down.
   */
  lemma PendingDownIsNoWakeup(k: nat, notifyOnChange: bool)
    requires k >= 2
    ensures exists es, t ::
      && Leads(Next(UpFirst(k, notifyOnChange), Subscribe), es, t) && AllIdle(t) && t.state == Up
      && t.listeners == [Listener([Down], 0, 0, 1)]
    ensures Reaches(Initial(k, notifyOnChange), UpFirst(k, notifyOnChange))
    ensures !WaiterWoken(UpFirst(k, notifyOnChange))
  {
    UpFirstReached(k, notifyOnChange);
    hide Reaches, Two;
    var s := Next(UpFirst(k, notifyOnChange), Subscribe);
    assert s.listeners == [Listener([], 0, 0, 1)];
    TwoMoves(k, Idle, Written(Down), Notifying(Down, 0));
    TwoMoves(k, Idle, Notifying(Down, 0), Notifying(Down, 1));
    TwoMoves(k, Idle, Notifying(Down, 1), Idle);
    assert Leads(s, [], s);
    ReachStep(s, s, StartPass(1));
    var t := Next(s, StartPass(1));
    ReachStep(s, t, Offer(1));
    t := Next(t, Offer(1));
    assert t.listeners[0].sent == [Down];
    assert t.listeners == [Listener([Down], 0, 0, 1)];
    ReachStep(s, t, EndPass(1));
    t := Next(t, EndPass(1));
    ReachesRun(s, t);
    assert AllIdle(t) && Up !in t.listeners[0].sent;
  }

  // ---------------------------------------------------------------- whole updates

  /** The listeners after the first `next` of them were offered x. */
  function OfferedUpTo(ls: seq<Listener>, x: NetState, next: nat): seq<Listener> {
    seq(|ls|, i requires 0 <= i < |ls| => if i < next then Offered(ls[i], x) else ls[i])
  }

  /** The network after an updateState that nothing interrupts. */
  function Updated(s: Network, x: NetState): Network {
    if s.notifyOnChange && s.state == x then s
    else s.(state := x, listeners := OfferedUpTo(s.listeners, x, |s.listeners|), passes := s.passes + [x])
  }

  lemma {:induction false} OfferRun(s: Network, ls: seq<Listener>, x: NetState, es: seq<Step>, t: Network, next: nat)
    returns (run: seq<Step>, u: Network)
    requires t.updaters != [] && t.updaters[0] == Notifying(x, next)
    requires next <= |ls| && t.listeners == OfferedUpTo(ls, x, next)
    requires SerialLeads(s, es, t)
    ensures u == t.(listeners := OfferedUpTo(ls, x, |ls|), updaters := t.updaters[0 := Notifying(x, |ls|)])
    ensures SerialLeads(s, run, u)
    decreases |ls| - next
  {
    hide SerialLeads;
    if next == |ls| {
      run, u := es, t;
    } else {
      SerialAppend(s, es, t, Offer(0));
      var v := Next(t, Offer(0));
      assert v.listeners == OfferedUpTo(ls, x, next + 1);
      run, u := OfferRun(s, ls, x, es + [Offer(0)], v, next + 1);
    }
  }

  /** Begin writes the state, StartPass takes the read lock with nobody notified yet. */
  lemma PassStarts(s: Network, x: NetState) returns (es: seq<Step>, t: Network)
    requires s.updaters != [] && AllIdle(s) && (!s.notifyOnChange || s.state != x)
    ensures SerialLeads(s, es, t)
    ensures t == Network(x, OfferedUpTo(s.listeners, x, 0), s.updaters[0 := Notifying(x, 0)], s.notifyOnChange,
                         s.passes + [x])
  {
    EmptyRun(s);
    hide SerialLeads, OfferedUpTo;
    SerialAppend(s, [], s, Begin(0, x));
    t := Next(s, Begin(0, x));
    SerialAppend(s, [] + [Begin(0, x)], t, StartPass(0));
    t := Next(t, StartPass(0));
    es := [] + [Begin(0, x)] + [StartPass(0)];
    NoneOffered(s.listeners, x);
  }

  lemma NoneOffered(ls: seq<Listener>, x: NetState)
    ensures OfferedUpTo(ls, x, 0) == ls
  {
  }

  /** An uninterrupted updateState is a serialised run: begin, one pass over all listeners, end. */
  lemma WholeUpdate(s: Network, x: NetState) returns (es: seq<Step>)
    requires s.updaters != [] && AllIdle(s)
    ensures SerialLeads(s, es, Updated(s, x))
  {
    EmptyRun(s);
    es := [];
    if !s.notifyOnChange || s.state != x {
      var t;
      es, t := PassStarts(s, x);
      hide SerialLeads, OfferedUpTo;
      es, t := OfferRun(s, s.listeners, x, es, t, 0);
      SerialAppend(s, es, t, EndPass(0));
      es := es + [EndPass(0)];
      assert s.updaters[0 := Idle] == s.updaters;
      assert Next(t, EndPass(0)) == Updated(s, x);
    }
  }

  lemma {:induction false} SerialAppend(s: Network, es: seq<Step>, t: Network, e: Step)
    requires SerialLeads(s, es, t) && Enabled(t, e) && Serial(t, e)
    ensures SerialLeads(s, es + [e], Next(t, e))
    decreases |es|
  {
    hide Enabled, Next, Serial;
    if es == [] {
      assert es + [e] == [e];
      assert SerialLeads(Next(t, e), [e][1..], Next(t, e));
    } else {
      SerialAppend(Next(s, es[0]), es[1..], t, e);
      assert (es + [e])[1..] == es[1..] + [e];
    }
  }

  /** What can happen while a waiter waits: a step of others, a take from its channel, the end of its context. */
  datatype Move = Other(e: Step) | Take | Done

  datatype WaitOutcome = Available | Cancelled | StillWaiting

  /** A step that is not possible now does not happen. */
  function Stepped(s: Network, e: Step): Network { if Enabled(s, e) then Next(s, e) else s }

  function Gapped(s: Network, gap: seq<Step>): Network
    decreases |gap|
  {
    if gap == [] then s else Gapped(Stepped(s, gap[0]), gap[1..])
  }

  /** The waiter of listener id over a series of moves; nobody else takes from its channel. */
  function Waited(s: Network, id: nat, moves: seq<Move>): (r: (Network, WaitOutcome))
    requires id < |s.listeners|
    ensures id < |r.0.listeners|
    decreases |moves|
  {
    if moves == [] then (s, StillWaiting)
    else match moves[0]
      case Done => (s, Cancelled)
      case Other(e) => Waited(if e == Receive(id) then s else Stepped(s, e), id, moves[1..])
      case Take =>
        if !Enabled(s, Receive(id)) then Waited(s, id, moves[1..])
        else
          var l, t := s.listeners[id], Next(s, Receive(id));
          if l.sent[l.consumed] == Up then (t, Available) else Waited(t, id, moves[1..])
  }

  /** What the waiter of listener id has taken from its channel. */
  function Taken(s: Network, id: nat): seq<NetState>
    requires id < |s.listeners|
  {
    var l := s.listeners[id];
    if l.consumed <= |l.sent| then l.sent[..l.consumed] else l.sent
  }

  lemma SteppedTaken(s: Network, e: Step, id: nat)
    requires Bounded(s) && id < |s.listeners| && e != Receive(id)
    ensures var t := Stepped(s, e);
      Bounded(t) && |t.updaters| == |s.updaters| && id < |t.listeners| && Taken(t, id) == Taken(s, id)
  {
  }

  lemma TakenNext(s: Network, id: nat)
    requires Bounded(s) && Enabled(s, Receive(id))
    ensures Bounded(Next(s, Receive(id)))
    ensures Taken(Next(s, Receive(id)), id) == Taken(s, id) + [s.listeners[id].sent[s.listeners[id].consumed]]
  {
  }

  lemma SteppedLeads(s: Network, e: Step, es: seq<Step>, t: Network) returns (all: seq<Step>)
    requires Leads(Stepped(s, e), es, t)
    ensures Leads(s, all, t)
  {
    all := if Enabled(s, e) then [e] + es else es;
    assert Enabled(s, e) ==> all[1..] == es;
  }

  /** Waiting is a run of the step machine, and ends with success exactly when an Up was taken. */
  lemma {:induction false} WaitedRun(s: Network, id: nat, moves: seq<Move>) returns (es: seq<Step>)
    requires Bounded(s) && id < |s.listeners| && Up !in Taken(s, id)
    ensures var (t, r) := Waited(s, id, moves);
      Leads(s, es, t) && Bounded(t) && (r == Available <==> Up in Taken(t, id))
    decreases |moves|
  {
    es := [];
    if moves != [] {
      match moves[0]
      case Done =>
      case Other(e) =>
        if e == Receive(id) {
          es := WaitedRun(s, id, moves[1..]);
        } else {
          SteppedTaken(s, e, id);
          hide Bounded, Taken, Leads, Stepped;
          es := WaitedRun(Stepped(s, e), id, moves[1..]);
          es := SteppedLeads(s, e, es, Waited(Stepped(s, e), id, moves[1..]).0);
        }
      case Take =>
        if Enabled(s, Receive(id)) {
          var u := Next(s, Receive(id));
          TakenNext(s, id);
          assert Leads(u, [], u) && Stepped(s, Receive(id)) == u;
          hide Bounded, Taken, Leads, Next;
          if s.listeners[id].sent[s.listeners[id].consumed] != Up {
            es := WaitedRun(u, id, moves[1..]);
          }
          es := SteppedLeads(s, Receive(id), es, Waited(s, id, moves).0);
        } else {
          es := WaitedRun(s, id, moves[1..]);
        }
    }
  }

  /** The waiter is cancelled only by the end of its context, and does not outlast it. */
  lemma {:induction false} WaitedOutcome(s: Network, id: nat, moves: seq<Move>)
    requires id < |s.listeners|
    ensures var r := Waited(s, id, moves).1;
      (r == Cancelled ==> Done in moves) && (r == StillWaiting ==> Done !in moves)
    decreases |moves|
  {
    hide Enabled, Next;
    if moves != [] {
      match moves[0]
      case Done =>
      case Other(e) =>
        if Enabled(s, e) {
          ListenersStay(s, e);
        }
        WaitedOutcome(if e == Receive(id) then s else Stepped(s, e), id, moves[1..]);
      case Take =>
        if Enabled(s, Receive(id)) {
          ReceiveKeeps(s, id);
          WaitedOutcome(Next(s, Receive(id)), id, moves[1..]);
        } else {
          WaitedOutcome(s, id, moves[1..]);
        }
    }
  }

  lemma ReceiveKeeps(s: Network, id: nat)
    requires Enabled(s, Receive(id))
    ensures |Next(s, Receive(id)).listeners| == |s.listeners|
  {
  }

  /** What others do while a waiter waits, and in its gap, happens: every possible run of theirs. */
  lemma {:induction false} GappedFollows(s: Network, es: seq<Step>, t: Network)
    requires Leads(s, es, t)
    ensures Gapped(s, es) == t
    decreases |es|
  {
    if es != [] {
      GappedFollows(Next(s, es[0]), es[1..], t);
    }
  }

  function Others(es: seq<Step>): seq<Move> { if es == [] then [] else [Other(es[0])] + Others(es[1..]) }

  lemma {:induction false} WaitedFollows(s: Network, id: nat, es: seq<Step>, t: Network)
    requires Leads(s, es, t) && id < |s.listeners| && Receive(id) !in es
    ensures Waited(s, id, Others(es)) == (t, StillWaiting)
    decreases |es|
  {
    if es != [] {
      assert es[0] in es && Others(es)[1..] == Others(es[1..]);
      ListenersStay(s, es[0]);
      hide Next, Enabled;
      WaitedFollows(Next(s, es[0]), id, es[1..], t);
    }
  }

  lemma ListenersStay(s: Network, e: Step)
    requires Enabled(s, e)
    ensures |s.listeners| <= |Next(s, e).listeners|
  {
  }

  function Takes(k: nat): seq<Move> { if k == 0 then [] else [Take] + Takes(k - 1) }

  /** Taking all that is buffered, a waiter succeeds exactly when an Up is among it. */
  lemma {:induction false} EnoughTakes(s: Network, id: nat, k: nat)
    requires Bounded(s) && id < |s.listeners| && k == |s.listeners[id].sent| - s.listeners[id].consumed
    ensures Waited(s, id, Takes(k)).1 == Available <==> Up in s.listeners[id].sent[s.listeners[id].consumed..]
    decreases k
  {
    var l := s.listeners[id];
    var left := l.sent[l.consumed..];
    if k > 0 {
      var t := Next(s, Receive(id));
      assert Takes(k)[1..] == Takes(k - 1);
      assert t.listeners[id] == l.(consumed := l.consumed + 1);
      assert left == [l.sent[l.consumed]] + l.sent[l.consumed + 1..];
      BoundedStepped(s, Receive(id));
      if l.sent[l.consumed] != Up {
        EnoughTakes(t, id, k - 1);
      }
    }
  }

  lemma {:induction false} GappedRun(s: Network, gap: seq<Step>) returns (es: seq<Step>)
    requires Bounded(s)
    ensures Leads(s, es, Gapped(s, gap)) && Bounded(Gapped(s, gap)) && |Gapped(s, gap).updaters| == |s.updaters|
    decreases |gap|
  {
    es := [];
    if gap != [] {
      BoundedStepped(s, gap[0]);
      hide Bounded, Leads, Stepped;
      es := GappedRun(Stepped(s, gap[0]), gap[1..]);
      es := SteppedLeads(s, gap[0], es, Gapped(s, gap));
    }
  }

  lemma BoundedStepped(s: Network, e: Step)
    requires Bounded(s)
    ensures Bounded(Stepped(s, e)) && |Stepped(s, e).updaters| == |s.updaters|
  {
  }

  lemma EmptyRun(s: Network)
    ensures SerialLeads(s, [], s)
  {
  }

  /**
   How a wait that subscribed in state g ends: with success exactly when an Up was taken.
   However updates overlap, a waiter that could still be woken at its Subscribe and is waiting
   although the network is up finds an Up in its channel, or a message was dropped.
   */
  lemma WaitEnds(g: Network, moves: seq<Move>)
    requires Bounded(g) && Enabled(g, Subscribe)
    ensures var (t, r) := Waited(Next(g, Subscribe), |g.listeners|, moves);
      var l := t.listeners[|g.listeners|];
      && l.consumed <= |l.sent|
      && (r == Available <==> Up in l.sent[..l.consumed])
      && (g.state != Up || UpUnannounced(g) ==>
            r != Available && AllIdle(t) && t.state == Up && l.dropped == 0 ==> Up in l.sent[l.consumed..])
  {
    var s, id := Next(g, Subscribe), |g.listeners|;
    var es := WaitedRun(s, id, moves);
    var t := Waited(s, id, moves).0;
    var l := t.listeners[id];
    assert l.consumed <= |l.sent| && l.sent == l.sent[..l.consumed] + l.sent[l.consumed..];
    if g.state != Up || UpUnannounced(g) {
      Subscribed(g);
      hide Leads, Waited, Next, Taken, Bounded, UpUnannounced, Owed, AllIdle;
      OwedRun(s, es, t, id);
      if AllIdle(t) && t.state == Up && l.dropped == 0 {
        OwedMet(t, id);
      }
    }
  }

  // ---------------------------------------------------------------- connectivity

  /** Up when every host answers, Degraded when only some do, Down when none does (or none is configured). */
  method CheckConnectivity(hosts: seq<string>, canReach: string -> bool) returns (r: NetState)
    ensures r == Up <==> hosts != [] && forall h :: h in hosts ==> canReach(h)
    ensures r == Down <==> forall h :: h in hosts ==> !canReach(h)
    ensures r == Up || r == Down || r == Degraded
  {
    var successCount := 0;
    for i := 0 to |hosts|
      invariant 0 <= successCount <= i
      invariant successCount == i <==> forall j :: 0 <= j < i ==> canReach(hosts[j])
      invariant successCount == 0 <==> forall j :: 0 <= j < i ==> !canReach(hosts[j])
    {
      if canReach(hosts[i]) {
        successCount := successCount + 1;
      }
    }
    if successCount > 0 {
      if successCount == |hosts| {
        return Up;
      }
      return Degraded;
    }
    return Down;
  }

  // ---------------------------------------------------------------- the monitor object

  /** The monitor; updaters says where each goroutine that calls updateState stands. */
  class NetworkMonitor {
    var state: NetState
    var listeners: seq<Listener>
    var updaters: seq<Updater>
    var passes: seq<NetState>  // log of the notify passes begun
    const notifyOnChange: bool

    function View(): Network
      reads this
    {
      Network(state, listeners, updaters, notifyOnChange, passes)
    }

    constructor (k: nat, notify: bool)
      ensures View() == Initial(k, notify)
    {
      state, listeners, updaters, passes, notifyOnChange := Unknown, [], seq(k, _ => Idle), [], notify;
    }

    /** Subscribe, once it holds the lock. */
    method Subscribe() returns (id: nat)
      requires NoPass(View())
      modifies this
      ensures View() == Next(old(View()), Step.Subscribe) && id == |old(listeners)|
    {
      id := |listeners|;
      listeners := listeners + [Listener([], 0, 0, |passes|)];
    }

    /** One atomic step of some goroutine. */
    method Perform(e: Step)
      requires Enabled(View(), e)
      modifies this
      ensures View() == Next(old(View()), e)
      ensures e.Begin? ==>
        && state == e.announced && listeners == old(listeners)
        && updaters == if !notifyOnChange || old(state) != e.announced then old(updaters)[e.u := Written(e.announced)]
                       else old(updaters)
      ensures e.StartPass? ==> listeners == old(listeners) && passes == old(passes) + [old(updaters)[e.u].announced]
      ensures e.EndPass? ==> listeners == old(listeners) && updaters == old(updaters)[e.u := Idle]
    {
      match e {
        case Begin(u, newState) =>
          var oldState := state;
          state := newState;
          if !notifyOnChange || oldState != newState {
            updaters := updaters[u := Written(newState)];
          }
        case StartPass(u) =>
          var newState := updaters[u].announced;
          updaters, passes := updaters[u := Notifying(newState, 0)], passes + [newState];
        case Offer(u) =>
          var newState, i := updaters[u].announced, updaters[u].next;
          if |listeners[i].sent| < listeners[i].consumed + BUFFER {
            listeners := listeners[i := listeners[i].(sent := listeners[i].sent + [newState])];
          } else {
            listeners := listeners[i := listeners[i].(dropped := listeners[i].dropped + 1)];
          }
          updaters := updaters[u := Notifying(newState, i + 1)];
        case EndPass(u) => updaters := updaters[u := Idle];
        case Subscribe =>
          var _ := Subscribe();
        case Receive(l) => listeners := listeners[l := listeners[l].(consumed := listeners[l].consumed + 1)];
      }
    }

    /**
     WaitForNetwork among the steps of others: those of `gap` between its check and its
     Subscribe, which waits for a running pass to end, and those of `moves` while it selects.
     The subscription is never taken back.
     */
    method WaitForNetwork(gap: seq<Step>, moves: seq<Move>) returns (r: WaitOutcome)
      requires Bounded(View())
      modifies this
      ensures old(state) == Up ==> r == Available && View() == old(View())
      ensures old(state) != Up ==>
        var g := Gapped(old(View()), gap);
        if NoPass(g) then (View(), r) == Waited(Next(g, Step.Subscribe), |g.listeners|, moves)
        else r == StillWaiting && View() == g
      ensures old(state) != Up && NoPass(Gapped(old(View()), gap)) ==>
        var g := Gapped(old(View()), gap);
        var l := listeners[|g.listeners|];
        && l.consumed <= |l.sent| && (r == Available <==> Up in l.sent[..l.consumed])
        && (g.state != Up || UpUnannounced(g) ==>
              r != Available && AllIdle(View()) && state == Up && l.dropped == 0 ==> Up in l.sent[l.consumed..])
    {
      if state == Up {
        return Available;
      }
      hide Enabled, Next, Bounded, NoPass, AllIdle, UpUnannounced;
      ghost var g := Gapped(View(), gap);
      ghost var run := GappedRun(View(), gap);
      for i := 0 to |gap|
        invariant g == Gapped(View(), gap[i..])
      {
        assert gap[i..][1..] == gap[i + 1..];
        if Enabled(View(), gap[i]) {
          Perform(gap[i]);
        }
      }
      assert View() == g;
      if !NoPass(View()) {
        return StillWaiting;
      }
      r := Select(moves);
    }

    /** From the Subscribe on. */
    method Select(moves: seq<Move>) returns (r: WaitOutcome)
      requires Bounded(View()) && NoPass(View())
      modifies this
      ensures (View(), r) == Waited(Next(old(View()), Step.Subscribe), |old(listeners)|, moves)
      ensures var l := listeners[|old(listeners)|];
        && l.consumed <= |l.sent| && (r == Available <==> Up in l.sent[..l.consumed])
        && (old(state != Up || UpUnannounced(View())) ==>
              r != Available && AllIdle(View()) && state == Up && l.dropped == 0 ==> Up in l.sent[l.consumed..])
    {
      WaitEnds(View(), moves);
      var id := Subscribe();
      ghost var start := View();
      hide Bounded, NoPass, AllIdle, UpUnannounced;
      for i := 0 to |moves|
        invariant id < |listeners|
        invariant Waited(start, id, moves) == Waited(View(), id, moves[i..])
      {
        assert moves[i..][1..] == moves[i + 1..];
        match moves[i]
        case Done =>
          return Cancelled;
        case Other(e) =>
          if e != Receive(id) && Enabled(View(), e) {
            Perform(e);
          }
        case Take =>
          var l := listeners[id];
          if l.consumed < |l.sent| {
            Perform(Receive(id));
            if l.sent[l.consumed] == Up {
              return Available;
            }
          }
      }
      return StillWaiting;
    }

    /** updateState, when nothing interrupts it. */
    method UpdateState(newState: NetState)
      modifies this
      ensures View() == Updated(old(View()), newState)
      ensures state == newState && |listeners| == |old(listeners)|
      ensures passes == if notifyOnChange && old(state) == newState then old(passes) else old(passes) + [newState]
      ensures notifyOnChange && old(state) == newState ==> listeners == old(listeners)
      ensures !notifyOnChange || old(state) != newState ==>
        forall i :: 0 <= i < |listeners| ==>
          var l, was := listeners[i], old(listeners)[i];
          && l.consumed == was.consumed
          && if |was.sent| < was.consumed + 10 then l.sent == was.sent + [newState] && l.dropped == was.dropped
             else l.sent == was.sent && l.dropped == was.dropped + 1
    {
      ghost var s := View();
      var oldState := state;
      state := newState;
      if !notifyOnChange || oldState != newState {
        passes := passes + [newState];
        for i := 0 to |listeners|
          invariant |listeners| == |s.listeners| && state == newState && passes == s.passes + [newState]
          invariant updaters == s.updaters && listeners == OfferedUpTo(s.listeners, newState, i)
        {
          if |listeners[i].sent| < listeners[i].consumed + BUFFER {
            listeners := listeners[i := listeners[i].(sent := listeners[i].sent + [newState])];
          } else {
            listeners := listeners[i := listeners[i].(dropped := listeners[i].dropped + 1)];
          }
        }
      }
    }
  }
}
