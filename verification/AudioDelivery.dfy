/** Audio delivery reaches the listeners: who is on the list, what one pass collects, what one send does,
    and that between them every attached listener gets its turn with every packet, in any interleaving. */
module AudioDelivery {

  import opened AudioFanout

  // ---------------------------------------------------------------- who is on the list

  predicate Rising(list: seq<nat>) {
    forall j, k | 0 <= j < k < |list| :: list[j] < list[k]
  }

  lemma {:induction false} WithoutRises(list: seq<nat>, i: nat)
    requires Rising(list)
    ensures Rising(Without(list, i))
  {
    if list != [] {
      var rest := Without(list[1..], i);
      WithoutRises(list[1..], i);
      forall k | 0 <= k < |rest|
        ensures rest[k] in list[1..]
      {
        assert rest[k] in rest;
        WithoutKeeps(list[1..], i, rest[k]);
      }
    }
  }

  lemma {:induction false} CloseAllKeepsList(s: State, i: nat, order: seq<User>)
    requires i < |s.items|
    ensures var s' := CloseAllStreams(s, i, order);
            s'.list == s.list && s'.disp == s.disp && |s'.items| == |s.items| && s'.buffers == s.buffers
    decreases |order|
  {
    if order != [] {
      CloseAllKeepsList(CloseStream(s, i, order[0]), i, order[1..]);
    }
  }

  lemma {:induction false} CloseForUserKeepsList(s: State, list: seq<nat>, u: User)
    ensures var s' := CloseForUser(s, list, u);
            s'.list == s.list && s'.disp == s.disp && |s'.items| == |s.items| && s'.buffers == s.buffers
    decreases |list|
  {
    if list != [] && list[0] < |s.items| {
      CloseForUserKeepsList(CloseStream(s, list[0], u), list[1..], u);
    }
  }

  lemma {:induction false} VisitAllKeepsList(s: State, t: nat, list: seq<nat>)
    requires t < |s.disp| && s.disp[t].Delivering?
    ensures var s' := VisitAll(s, t, list);
            s'.list == s.list && |s'.items| == |s.items| && |s'.disp| == |s.disp| && s'.buffers == s.buffers
            && forall v | 0 <= v < |s.disp| && v != t :: s'.disp[v] == s.disp[v]
    decreases |list|
  {
    if list != [] && list[0] < |s.items| {
      VisitAllKeepsList(Visit(s, t, list[0]), t, list[1..]);
    }
  }

  lemma DetachKeepsRest(s: State, i: nat, s': State)
    requires Enabled(s, Detach(i)) && Next(s, Detach(i), s')
    ensures s'.disp == s.disp && (s'.list == s.list || s'.list == Without(s.list, i))
  {
    hide Without, Rising;
    if !s.items[i].detached {
      var order :|
        && (forall u :: u in order <==> u in s.items[i].streams)
        && (forall j, k | 0 <= j < k < |order| :: order[j] != order[k])
        && s' == Unlinked(CloseAllStreams(s, i, order), i);
      CloseAllKeepsList(s, i, order);
    }
  }

  lemma CollectKeepsRest(s: State, t: nat, id: nat, s': State)
    requires Enabled(s, Collect(t, id)) && Next(s, Collect(t, id), s')
    ensures s'.list == s.list && |s'.disp| == |s.disp|
    ensures forall v | 0 <= v < |s.disp| && v != t :: s'.disp[v] == s.disp[v]
  {
    var u := s.disp[t].user;
    VisitAllKeepsList(s.(disp := s.disp[t := Delivering(u, Packet(u, id), [])]), t, s.list);
  }

  lemma AttachRises(s: State)
    requires Rising(s.list) && Inv(s)
    ensures Rising(s.list + [|s.items|])
  {
  }

  // One atomic section keeps the list in order of attachment.
  lemma StepRises(s: State, a: Action, s': State)
    requires Inv(s) && Enabled(s, a) && Next(s, a, s') && Rising(s.list)
    ensures Rising(s'.list)
  {
    hide Inv, Rising;
    match a
    case Attach => AttachRises(s);
    case Detach(i) =>
      DetachKeepsRest(s, i, s');
      WithoutRises(s.list, i);
    case Collect(t, id) => CollectKeepsRest(s, t, id, s');
    case CloseStreams => CloseForUserKeepsList(s, s.list, s.writer.user);
    case Announce(t) =>
    case Send(t) =>
    case _ => assert s'.list == s.list;
  }

  lemma {:induction false} RunRises(run: seq<State>, i: nat)
    requires IsRun(run) && i < |run|
    ensures Rising(run[i].list)
  {
    if i > 0 {
      RunRises(run, i - 1);
      RunInv(run, i - 1);
      assert Step(run[i - 1], run[i]);
      var a :| Enabled(run[i - 1], a) && Next(run[i - 1], a, run[i]);
      StepRises(run[i - 1], a, run[i]);
    }
  }

  /** After any run the list names exactly the listeners not yet detached, each once, oldest first. */
  lemma ListedAreAttached(run: seq<State>, i: nat)
    requires IsRun(run) && i < |run|
    ensures Rising(run[i].list)
    ensures forall l: nat :: l in run[i].list <==> l < |run[i].items| && !run[i].items[l].detached
  {
    RunRises(run, i);
    RunInv(run, i);
  }

  // ---------------------------------------------------------------- what one pass collects

  function ItemsOf(todo: seq<Delivery>): seq<nat> {
    seq(|todo|, k requires 0 <= k < |todo| => todo[k].item)
  }

  /** Each entry names the stream its listener now holds for the user; `fresh` entries are empty open streams. */
  predicate Collected(s: State, u: User, d: Delivery) {
    && Active(s, d, u) && d.ch < |s.chans| && !s.chans[d.ch].closed
    && (d.isNew ==> s.chans[d.ch].queue == [])
  }

  /** What a pass leaves as it was: streams already there, and every other goroutine. */
  predicate OnlyOpens(s: State, s': State) {
    && |s.chans| <= |s'.chans| && s'.chans[..|s.chans|] == s.chans
    && |s'.items| == |s.items|
    && forall l: nat, u | l < |s.items| && u in s.items[l].streams ::
         u in s'.items[l].streams && s'.items[l].streams[u] == s.items[l].streams[u]
  }

  predicate AllCollected(s: State, t: nat, u: User)
    requires t < |s.disp| && s.disp[t].Delivering?
  {
    forall k | 0 <= k < |s.disp[t].todo| :: Collected(s, u, s.disp[t].todo[k])
  }

  lemma VisitCollects(s: State, t: nat, i: nat)
    requires Inv(s) && t < |s.disp| && s.disp[t].Delivering? && i < |s.items| && !s.items[i].detached
    requires AllCollected(s, t, s.disp[t].user)
    ensures var s', d := Visit(s, t, i), s.disp[t];
            && s'.disp[t].user == d.user && s'.disp[t].packet == d.packet
            && OnlyOpens(s, s') && AllCollected(s', t, d.user)
            && ItemsOf(s'.disp[t].todo) == ItemsOf(d.todo) + [i]
            && |s'.disp[t].todo| == |d.todo| + 1
            && s'.disp[t].todo[|d.todo|].isNew == (d.user !in s.items[i].streams)
            && forall l | 0 <= l < |s.items| :: s'.items[l].detached == s.items[l].detached
  {
    var s', d := Visit(s, t, i), s.disp[t];
    assert ItemOk(s, i);
    if d.user in s.items[i].streams {
      assert Owns(s, i, d.user, s.items[i].streams[d.user]);
    }
    forall k | 0 <= k < |s'.disp[t].todo|
      ensures Collected(s', d.user, s'.disp[t].todo[k])
    {
      if k < |d.todo| {
        assert s'.disp[t].todo[k] == d.todo[k] && Collected(s, d.user, d.todo[k]);
      }
    }
  }

  lemma OpensChain(a: State, b: State, c: State)
    requires OnlyOpens(a, b) && OnlyOpens(b, c)
    ensures OnlyOpens(a, c)
  {
    assert c.chans[..|a.chans|] == c.chans[..|b.chans|][..|a.chans|];
  }

  lemma {:induction false} VisitAllCollects(s: State, t: nat, list: seq<nat>)
    requires Inv(s) && t < |s.disp| && s.disp[t].Delivering?
    requires forall k | 0 <= k < |list| :: list[k] < |s.items| && !s.items[list[k]].detached
    requires AllCollected(s, t, s.disp[t].user)
    ensures var s', d := VisitAll(s, t, list), s.disp[t];
            && |s'.disp| == |s.disp| && s'.disp[t].Delivering?
            && s'.disp[t].user == d.user && s'.disp[t].packet == d.packet
            && OnlyOpens(s, s') && AllCollected(s', t, d.user)
            && ItemsOf(s'.disp[t].todo) == ItemsOf(d.todo) + list
    decreases |list|
  {
    hide Inv;
    if list != [] {
      var s1 := Visit(s, t, list[0]);
      VisitCollects(s, t, list[0]);
      VisitInv(s, t, list[0]);
      VisitAllCollects(s1, t, list[1..]);
      OpensChain(s, s1, VisitAll(s, t, list));
    }
  }

  /** A pass over the list makes one entry for every attached listener, in list order, on the stream
      that listener holds for the speaker, opening an empty one where there was none. */
  lemma CollectsEveryListener(s: State, t: nat, id: nat, s': State)
    requires Inv(s) && Enabled(s, Collect(t, id)) && Next(s, Collect(t, id), s')
    ensures t < |s'.disp| && s'.disp[t].Delivering?
    ensures var u, d := s.disp[t].user, s'.disp[t];
            && d.user == u && d.packet == Packet(u, id)
            && ItemsOf(d.todo) == s.list
            && AllCollected(s', t, u) && OnlyOpens(s, s')
  {
    var u := s.disp[t].user;
    var started := s.(disp := s.disp[t := Delivering(u, Packet(u, id), [])]);
    assert DispOk(s, t);
    MoveInv(s, t, Delivering(u, Packet(u, id), []));
    VisitAllCollects(started, t, s.list);
    assert ItemsOf(started.disp[t].todo) == [];
    assert [] + s.list == s.list;
  }

  // ---------------------------------------------------------------- what one send does

  /** The channel a delivery reaches: its listener is still attached and still holds that stream for the user. */
  predicate Reaches(s: State, d: Delivery, u: User) {
    Active(s, d, u) && d.ch < |s.chans| && |s.chans[d.ch].queue| < Capacity(s)
  }

  /** A send puts the packet at the end of the stream if the listener still wants it and has room, and
      changes nothing else but the dispatcher's own list. */
  lemma SendDelivers(s: State, t: nat, s': State)
    requires Inv(s) && Enabled(s, Send(t)) && Next(s, Send(t), s')
    ensures var d := s.disp[t];
            var first := d.todo[0];
            && first.ch < |s.chans|
            && s'.disp == s.disp[t := d.(todo := d.todo[1..])]
            && s'.chans == (if Reaches(s, first, d.user)
                            then s.chans[first.ch := s.chans[first.ch].(queue := s.chans[first.ch].queue + [d.packet])]
                            else s.chans)
            && s' == s.(disp := s'.disp, chans := s'.chans)
  {
    var d := s.disp[t];
    var first := d.todo[0];
    assert DispOk(s, t) && DeliveryOk(s, t, d.user, first);
    if Active(s, first, d.user) {
      assert ItemOk(s, first.item) && Owns(s, first.item, d.user, first.ch);
    }
  }

  /** A listener that keeps up misses nothing: whatever the configured number of buffers, an empty stream takes the
      packet. */
  lemma EmptyStreamTakesIt(s: State, t: nat, s': State)
    requires Inv(s) && Enabled(s, Send(t)) && Next(s, Send(t), s')
    requires Active(s, s.disp[t].todo[0], s.disp[t].user)
    ensures var ch := s.disp[t].todo[0].ch;
            && ch < |s.chans| && ch < |s'.chans|
            && (s.chans[ch].queue == [] ==> s'.chans[ch].queue == [s.disp[t].packet])
            && (|s.chans[ch].queue| < s.buffers ==> s'.chans[ch].queue == s.chans[ch].queue + [s.disp[t].packet])
  {
    hide Inv, Next;
    SendDelivers(s, t, s');
  }

  // ---------------------------------------------------------------- every listener's turn

  /** The same deliveries in the same order, whether announced or not. */
  predicate SameTargets(todo: seq<Delivery>, todo': seq<Delivery>) {
    |todo| == |todo'| && forall k | 0 <= k < |todo| :: todo[k].item == todo'[k].item && todo[k].ch == todo'[k].ch
  }

  /** Whatever anybody does, a delivering goroutine keeps its packet and drops an entry only by sending it. */
  lemma TodoStep(s: State, a: Action, s': State, t: nat)
    requires Enabled(s, a) && Next(s, a, s')
    requires t < |s.disp| && s.disp[t].Delivering?
    ensures t < |s'.disp|
    ensures a == Send(t) || a == Finish(t) ||
            (s'.disp[t].Delivering? && s'.disp[t].user == s.disp[t].user && s'.disp[t].packet == s.disp[t].packet
             && SameTargets(s.disp[t].todo, s'.disp[t].todo))
    ensures a == Finish(t) ==> s.disp[t].todo == [] && !s'.disp[t].Delivering?
    ensures a == Send(t) ==> s.disp[t].todo != [] && s'.disp[t] == s.disp[t].(todo := s.disp[t].todo[1..])
  {
    match a
    case Detach(i) => DetachKeepsRest(s, i, s');
    case Collect(v, id) => CollectKeepsRest(s, v, id, s');
    case CloseStreams => CloseForUserKeepsList(s, s.list, s.writer.user);
    case Announce(v) =>
    case Send(v) =>
    case _ => assert s'.disp[t] == s.disp[t] || a == Finish(t);
  }

  /** At moment `m` the goroutine takes the step that offers `packet` to listener `item` on channel `ch`. */
  ghost predicate Offers(run: seq<State>, m: nat, t: nat, packet: Packet, item: nat, ch: nat)
    requires m + 1 < |run|
  {
    && Enabled(run[m], Send(t)) && Next(run[m], Send(t), run[m + 1])
    && run[m].disp[t].packet == packet && run[m].disp[t].todo[0].item == item && run[m].disp[t].todo[0].ch == ch
  }

  ghost predicate DeliveringAll(run: seq<State>, i: nat, j: nat, t: nat) {
    i <= j < |run| && forall m | i <= m <= j :: t < |run[m].disp| && run[m].disp[t].Delivering?
  }

  lemma RunStep(run: seq<State>, i: nat) returns (a: Action)
    requires IsRun(run) && i + 1 < |run|
    ensures Enabled(run[i], a) && Next(run[i], a, run[i + 1])
  {
    hide Next, Enabled;
    assert Step(run[i + 1 - 1], run[i + 1]);
    a :| Enabled(run[i], a) && Next(run[i], a, run[i + 1]);
  }

  predicate DeliveringAt(s: State, t: nat) {
    t < |s.disp| && s.disp[t].Delivering?
  }

  // One step of a run, seen by a goroutine that delivers before and after it.
  lemma TodoRun(run: seq<State>, i: nat, t: nat) returns (sent: bool)
    requires IsRun(run) && i + 1 < |run| && DeliveringAt(run[i], t) && DeliveringAt(run[i + 1], t)
    ensures var d, d' := run[i].disp[t], run[i + 1].disp[t];
      && d'.packet == d.packet && (sent ==> d.todo != [] && d'.todo == d.todo[1..])
      && (!sent ==> SameTargets(d.todo, d'.todo))
      && (sent ==> Offers(run, i, t, d.packet, d.todo[0].item, d.todo[0].ch))
  {
    hide IsRun, Inv, Next, Enabled, SameTargets;
    var a := RunStep(run, i);
    TodoStep(run[i], a, run[i + 1], t);
    sent := a == Send(t);
  }

  lemma DeliveringRest(run: seq<State>, i: nat, j: nat, t: nat)
    requires DeliveringAll(run, i, j, t) && i < j
    ensures DeliveringAll(run, i + 1, j, t) && DeliveringAt(run[i], t) && DeliveringAt(run[i + 1], t)
  {
  }

  /** While a goroutine delivers, at any moment each entry it started with is either still to come or
      has been offered exactly then to its listener. */
  lemma {:induction false} EntryServed(run: seq<State>, i: nat, j: nat, t: nat, k: nat) returns (m: nat)
    requires IsRun(run) && DeliveringAll(run, i, j, t) && k < |run[i].disp[t].todo|
    requires |run[j].disp[t].todo| <= |run[i].disp[t].todo| - k - 1
    ensures i <= m < j
    ensures Offers(run, m, t, run[i].disp[t].packet, run[i].disp[t].todo[k].item, run[i].disp[t].todo[k].ch)
    decreases j - i
  {
    hide IsRun, Offers;
    assert i != j;
    assert DeliveringAll(run, i, j, t) && i < j;
    DeliveringRest(run, i, j, t);
    hide DeliveringAll;
    var sent := TodoRun(run, i, t);
    if !sent {
      m := EntryServed(run, i + 1, j, t, k);
    } else if k == 0 {
      m := i;
    } else {
      m := EntryServed(run, i + 1, j, t, k - 1);
    }
  }

  /** A packet is offered to every listener attached when the pass began: for each there is a moment, before
      the goroutine is done, at which the send happens, on the stream collected for that listener. */
  lemma EveryListenerIsServed(run: seq<State>, i: nat, j: nat, t: nat, id: nat, l: nat) returns (m: nat, ch: nat)
    requires IsRun(run) && i + 1 <= j < |run|
    requires Enabled(run[i], Collect(t, id)) && Next(run[i], Collect(t, id), run[i + 1])
    requires DeliveringAll(run, i + 1, j, t) && run[j].disp[t].todo == []
    requires l < |run[i].items| && !run[i].items[l].detached
    ensures i < m < j
    ensures Offers(run, m, t, Packet(run[i].disp[t].user, id), l, ch)
    ensures l < |run[i + 1].items| && run[i].disp[t].user in run[i + 1].items[l].streams
            && run[i + 1].items[l].streams[run[i].disp[t].user] == ch
  {
    hide IsRun, Inv, Next, Offers, OnlyOpens;
    RunInv(run, i);
    CollectsEveryListener(run[i], t, id, run[i + 1]);
    ListedAreAttached(run, i);
    assert l in run[i].list;
    var k :| 0 <= k < |run[i].list| && run[i].list[k] == l;
    var todo := run[i + 1].disp[t].todo;
    assert ItemsOf(todo)[k] == l;
    m := EntryServed(run, i + 1, j, t, k);
    ch := todo[k].ch;
    assert Collected(run[i + 1], run[i].disp[t].user, todo[k]);
  }
}
