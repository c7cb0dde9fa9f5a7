/** Audio delivery to listeners while listeners detach and users leave, one atomic section at a time.
    Streams are opened, announced, sent on and closed by different goroutines. */
module AudioFanout {

  type Session = nat
  /** A user object: two users of one session, one after the other, are different users. */
  type User = nat

  datatype Packet = Packet(sender: User, id: nat)

  /** A stream channel: who opened it for whom, and what is waiting in it. */
  datatype Chan = Chan(item: nat, user: User, creator: nat, closed: bool, announced: nat, queue: seq<Packet>)

  datatype Item = Item(detached: bool, streams: map<User, nat>)

  /** One entry of dispatchAudio's list; `fresh` until OnAudioStream has been called for it. */
  datatype Delivery = Delivery(item: nat, ch: nat, isNew: bool)

  /** A goroutine that delivers audio. All but `Idle` hold the client's read lock. */
  datatype Dispatcher =
    | Idle
    | Holding(user: User)
    | Delivering(user: User, packet: Packet, todo: seq<Delivery>)

  /** The holder of the client's write lock, and how far its user removal got. */
  datatype Writer = Nobody | Writing | Removed(user: User)

  datatype State = State(
    items: seq<Item>, list: seq<nat>, chans: seq<Chan>, users: map<Session, User>, nextUser: User,
    disp: seq<Dispatcher>, writer: Writer, panicked: bool, buffers: int)

  datatype Action =
    | Attach
    | Detach(item: nat)
    | ReadLock(t: nat, session: Session)
    | Collect(t: nat, id: nat)
    | Announce(t: nat)
    | Send(t: nat)
    | Finish(t: nat)
    | ReadUnlock(t: nat)
    | WriteLock
    | AddUser(session: Session)
    | RemoveUser(session: Session)
    | CloseStreams
    | WriteUnlock
    | Consume(ch: nat)

  function Start(dispatchers: nat, buffers: int): State {
    State([], [], [], map[], 0, seq(dispatchers, _ => Idle), Nobody, false, buffers)
  }

  predicate Enabled(s: State, a: Action) {
    match a
    case Attach => true
    case Detach(i) => i < |s.items|
    case ReadLock(t, session) => t < |s.disp| && s.disp[t].Idle? && s.writer.Nobody? && session in s.users
    case Collect(t, _) => t < |s.disp| && s.disp[t].Holding?
    case Announce(t) => t < |s.disp| && s.disp[t].Delivering? && s.disp[t].todo != [] && s.disp[t].todo[0].isNew
    case Send(t) => t < |s.disp| && s.disp[t].Delivering? && s.disp[t].todo != [] && !s.disp[t].todo[0].isNew
    case Finish(t) => t < |s.disp| && s.disp[t].Delivering? && s.disp[t].todo == []
    case ReadUnlock(t) => t < |s.disp| && s.disp[t].Holding?
    case WriteLock => s.writer.Nobody? && forall t | 0 <= t < |s.disp| :: s.disp[t].Idle?
    case AddUser(session) => s.writer.Writing? && session !in s.users
    case RemoveUser(session) => s.writer.Writing? && session in s.users
    case CloseStreams => s.writer.Removed?
    case WriteUnlock => s.writer.Writing?
    case Consume(ch) => ch < |s.chans| && s.chans[ch].queue != []
  }

  function Capacity(s: State): nat {
    if s.buffers < 1 then 1 else s.buffers
  }

  /** One turn of the loop in dispatchAudio that runs under the listeners' lock. */
  function Visit(s: State, t: nat, i: nat): (r: State)
    requires t < |s.disp| && s.disp[t].Delivering? && i < |s.items|
    ensures |r.disp| == |s.disp| && r.disp[t].Delivering? && |r.items| == |s.items|
  {
    var d := s.disp[t];
    var item := s.items[i];
    if d.user in item.streams then
      s.(disp := s.disp[t := d.(todo := d.todo + [Delivery(i, item.streams[d.user], false)])])
    else
      var ch := |s.chans|;
      s.(chans := s.chans + [Chan(i, d.user, t, false, 0, [])],
         items := s.items[i := item.(streams := item.streams[d.user := ch])],
         disp := s.disp[t := d.(todo := d.todo + [Delivery(i, ch, true)])])
  }

  function VisitAll(s: State, t: nat, list: seq<nat>): State
    requires t < |s.disp| && s.disp[t].Delivering?
    decreases |list|
  {
    if list == [] || list[0] >= |s.items| then s else VisitAll(Visit(s, t, list[0]), t, list[1..])
  }

  /** Closes one user's stream at one listener; closing a closed channel panics. */
  function CloseStream(s: State, i: nat, u: User): (r: State)
    requires i < |s.items|
    ensures |r.items| == |s.items|
  {
    var item := s.items[i];
    if u !in item.streams then s
    else
      var ch := item.streams[u];
      s.(items := s.items[i := item.(streams := item.streams - {u})],
         chans := if ch < |s.chans| then s.chans[ch := s.chans[ch].(closed := true)] else s.chans,
         panicked := s.panicked || ch >= |s.chans| || s.chans[ch].closed)
  }

  function CloseForUser(s: State, list: seq<nat>, u: User): State
    decreases |list|
  {
    if list == [] || list[0] >= |s.items| then s else CloseForUser(CloseStream(s, list[0], u), list[1..], u)
  }

  /** Closes every stream of a listener, in the order in which the map yields its users. */
  function CloseAllStreams(s: State, i: nat, order: seq<User>): (r: State)
    requires i < |s.items|
    ensures |r.items| == |s.items|
    decreases |order|
  {
    if order == [] then s else CloseAllStreams(CloseStream(s, i, order[0]), i, order[1..])
  }

  function Without(list: seq<nat>, i: nat): seq<nat> {
    if list == [] then []
    else if list[0] == i then Without(list[1..], i) else [list[0]] + Without(list[1..], i)
  }

  function SendOn(s: State, ch: nat, p: Packet): State {
    if ch >= |s.chans| || s.chans[ch].closed then s.(panicked := true)
    else if |s.chans[ch].queue| < Capacity(s) then
      s.(chans := s.chans[ch := s.chans[ch].(queue := s.chans[ch].queue + [p])])
    else s
  }

  predicate Active(s: State, d: Delivery, u: User) {
    d.item < |s.items| && !s.items[d.item].detached
    && u in s.items[d.item].streams && s.items[d.item].streams[u] == d.ch
  }

  /** The state after one atomic section. */
  ghost predicate Next(s: State, a: Action, s': State)
    requires Enabled(s, a)
  {
    match a
    case Attach => s' == s.(items := s.items + [Item(false, map[])], list := s.list + [|s.items|])
    case Detach(i) =>
      if s.items[i].detached then s' == s
      else exists order ::
        && (forall u :: u in order <==> u in s.items[i].streams)
        && (forall j, k | 0 <= j < k < |order| :: order[j] != order[k])
        && s' == Unlinked(CloseAllStreams(s, i, order), i)
    case ReadLock(t, session) => s' == s.(disp := s.disp[t := Holding(s.users[session])])
    case Collect(t, id) =>
      var u := s.disp[t].user;
      s' == VisitAll(s.(disp := s.disp[t := Delivering(u, Packet(u, id), [])]), t, s.list)
    case Announce(t) =>
      var d := s.disp[t];
      var ch := d.todo[0].ch;
      ch < |s.chans|
      && s' == s.(chans := s.chans[ch := s.chans[ch].(announced := s.chans[ch].announced + 1)],
                  disp := s.disp[t := d.(todo := d.todo[0 := d.todo[0].(isNew := false)])])
    case Send(t) =>
      var d := s.disp[t];
      var sent := if Active(s, d.todo[0], d.user) then SendOn(s, d.todo[0].ch, d.packet) else s;
      s' == sent.(disp := s.disp[t := d.(todo := d.todo[1..])])
    case Finish(t) => s' == s.(disp := s.disp[t := Holding(s.disp[t].user)])
    case ReadUnlock(t) => s' == s.(disp := s.disp[t := Idle])
    case WriteLock => s' == s.(writer := Writing)
    case AddUser(session) => s' == s.(users := s.users[session := s.nextUser], nextUser := s.nextUser + 1)
    case RemoveUser(session) => s' == s.(users := s.users - {session}, writer := Removed(s.users[session]))
    case CloseStreams => s' == CloseForUser(s, s.list, s.writer.user).(writer := Writing)
    case WriteUnlock => s' == s.(writer := Nobody)
    case Consume(ch) => s' == s.(chans := s.chans[ch := s.chans[ch].(queue := s.chans[ch].queue[1..])])
  }

  function Unlinked(s: State, i: nat): State
    requires i < |s.items|
  {
    s.(items := s.items[i := s.items[i].(detached := true)], list := Without(s.list, i))
  }

  // ---------------------------------------------------------------- the invariant

  predicate ItemOk(s: State, i: nat)
    requires i < |s.items|
  {
    && (s.items[i].detached ==> s.items[i].streams == map[])
    && forall u | u in s.items[i].streams :: Owns(s, i, u, s.items[i].streams[u])
  }

  predicate Owns(s: State, i: nat, u: User, ch: nat) {
    ch < |s.chans| && !s.chans[ch].closed && s.chans[ch].item == i && s.chans[ch].user == u
  }

  /** While nobody holds the write lock, streams belong to users still connected. */
  predicate StreamsOfUsers(s: State, i: nat)
    requires i < |s.items|
  {
    forall u | u in s.items[i].streams :: u in s.users.Values || s.writer == Removed(u)
  }

  predicate DeliveryOk(s: State, t: nat, u: User, d: Delivery) {
    && d.ch < |s.chans| && s.chans[d.ch].item == d.item && s.chans[d.ch].user == u
    && (d.isNew ==> s.chans[d.ch].creator == t)
  }

  predicate DispOk(s: State, t: nat)
    requires t < |s.disp|
  {
    var d := s.disp[t];
    && (!d.Idle? ==> s.writer.Nobody? && d.user in s.users.Values)
    && (d.Delivering? ==>
        && d.packet.sender == d.user
        && (forall k | 0 <= k < |d.todo| :: DeliveryOk(s, t, d.user, d.todo[k]))
        && OnceEach(d.todo))
  }

  predicate OnceEach(todo: seq<Delivery>) {
    forall j, k | 0 <= j < k < |todo| && todo[j].isNew && todo[k].isNew :: todo[j].ch != todo[k].ch
  }

  predicate Pending(d: Dispatcher, ch: nat) {
    d.Delivering? && exists k :: 0 <= k < |d.todo| && d.todo[k].isNew && d.todo[k].ch == ch
  }

  predicate ChanOk(s: State, ch: nat)
    requires ch < |s.chans|
  {
    var c := s.chans[ch];
    && c.creator < |s.disp|
    && c.announced == (if Pending(s.disp[c.creator], ch) then 0 else 1)
    && |c.queue| <= Capacity(s)
    && forall k | 0 <= k < |c.queue| :: c.queue[k].sender == c.user
  }

  predicate UsersOk(s: State) {
    && (forall a | a in s.users :: s.users[a] < s.nextUser)
    && (forall a, b | a in s.users && b in s.users && a != b :: s.users[a] != s.users[b])
    && (s.writer.Removed? ==> s.writer.user !in s.users.Values)
  }

  predicate Inv(s: State) {
    && !s.panicked
    && (forall k | 0 <= k < |s.list| :: s.list[k] < |s.items| && !s.items[s.list[k]].detached)
    && (forall i | 0 <= i < |s.items| :: ItemOk(s, i) && StreamsOfUsers(s, i))
    && (forall i | 0 <= i < |s.items| && !s.items[i].detached :: i in s.list)
    && (forall t | 0 <= t < |s.disp| :: DispOk(s, t))
    && (forall ch | 0 <= ch < |s.chans| :: ChanOk(s, ch))
    && UsersOk(s)
  }

  lemma StartInv(n: nat, buffers: int)
    ensures Inv(Start(n, buffers))
  {
  }

  lemma VisitInv(s: State, t: nat, i: nat)
    requires Inv(s) && t < |s.disp| && s.disp[t].Delivering? && i < |s.items| && !s.items[i].detached
    ensures Inv(Visit(s, t, i))
  {
    var s' := Visit(s, t, i);
    assert DispOk(s, t) && ItemOk(s, i) && StreamsOfUsers(s, i);
    forall j | 0 <= j < |s'.items|
      ensures ItemOk(s', j) && StreamsOfUsers(s', j)
    {
      assert ItemOk(s, j) && StreamsOfUsers(s, j);
    }
    forall v | 0 <= v < |s'.disp|
      ensures DispOk(s', v)
    {
      assert DispOk(s, v);
    }
    forall ch | 0 <= ch < |s'.chans|
      ensures ChanOk(s', ch)
    {
      if ch < |s.chans| {
        assert ChanOk(s, ch);
        PendingAppend(s.disp[t], s'.disp[t], ch);
      } else {
        assert s'.disp[t].todo[|s.disp[t].todo|].isNew;
      }
    }
  }

  lemma {:induction false} VisitAllInv(s: State, t: nat, list: seq<nat>)
    requires Inv(s) && t < |s.disp| && s.disp[t].Delivering?
    requires forall k | 0 <= k < |list| :: list[k] < |s.items| && !s.items[list[k]].detached
    ensures Inv(VisitAll(s, t, list))
    decreases |list|
  {
    hide Inv;
    if list != [] {
      VisitInv(s, t, list[0]);
      VisitAllInv(Visit(s, t, list[0]), t, list[1..]);
    }
  }

  lemma PendingAppend(d: Dispatcher, d': Dispatcher, ch: nat)
    requires d.Delivering? && d'.Delivering? && |d'.todo| == |d.todo| + 1 && d'.todo[..|d.todo|] == d.todo
    requires d'.todo[|d.todo|].isNew ==> d'.todo[|d.todo|].ch != ch
    ensures Pending(d, ch) == Pending(d', ch)
  {
    if Pending(d, ch) {
      var k :| 0 <= k < |d.todo| && d.todo[k].isNew && d.todo[k].ch == ch;
      assert d'.todo[k] == d'.todo[..|d.todo|][k];
    }
    if Pending(d', ch) {
      var k :| 0 <= k < |d'.todo| && d'.todo[k].isNew && d'.todo[k].ch == ch;
      assert d'.todo[..|d.todo|][k] == d.todo[k];
    }
  }

  /** What closing streams leaves alone. */
  predicate OnlyCloses(s: State, s': State) {
    && s' == s.(items := s'.items, chans := s'.chans, panicked := s'.panicked)
    && |s'.items| == |s.items|
    && forall i | 0 <= i < |s.items| ::
         && s'.items[i].detached == s.items[i].detached
         && s'.items[i].streams.Keys <= s.items[i].streams.Keys
  }

  lemma CloseStreamInv(s: State, i: nat, u: User)
    requires Inv(s) && i < |s.items|
    ensures Inv(CloseStream(s, i, u)) && OnlyCloses(s, CloseStream(s, i, u))
    ensures CloseStream(s, i, u).items == s.items[i := s.items[i].(streams := s.items[i].streams - {u})]
  {
    var s' := CloseStream(s, i, u);
    assert ItemOk(s, i);
    if u !in s.items[i].streams {
      assert s.items[i].streams - {u} == s.items[i].streams;
    }
    forall j | 0 <= j < |s'.items|
      ensures ItemOk(s', j) && StreamsOfUsers(s', j)
    {
      assert ItemOk(s, j) && StreamsOfUsers(s, j);
    }
    forall v | 0 <= v < |s'.disp|
      ensures DispOk(s', v)
    {
      assert DispOk(s, v);
    }
    forall ch | 0 <= ch < |s'.chans|
      ensures ChanOk(s', ch)
    {
      assert ChanOk(s, ch);
    }
  }

  lemma {:induction false} CloseForUserInv(s: State, list: seq<nat>, u: User)
    requires Inv(s) && forall k | 0 <= k < |list| :: list[k] < |s.items|
    ensures var s' := CloseForUser(s, list, u);
            Inv(s') && OnlyCloses(s, s') && forall k | 0 <= k < |list| :: u !in s'.items[list[k]].streams
    decreases |list|
  {
    hide Inv;
    if list != [] {
      CloseStreamInv(s, list[0], u);
      var s1 := CloseStream(s, list[0], u);
      CloseForUserInv(s1, list[1..], u);
      var s' := CloseForUser(s, list, u);
      forall k | 0 <= k < |list|
        ensures u !in s'.items[list[k]].streams
      {
        if k > 0 {
          assert list[k] == list[1..][k - 1];
        } else {
          assert u !in s1.items[list[0]].streams.Keys;
        }
      }
    }
  }

  lemma {:induction false} CloseAllInv(s: State, i: nat, order: seq<User>)
    requires Inv(s) && i < |s.items|
    ensures var s' := CloseAllStreams(s, i, order);
            Inv(s') && OnlyCloses(s, s') && forall u | u in s'.items[i].streams :: u !in order
    decreases |order|
  {
    hide Inv;
    if order != [] {
      CloseStreamInv(s, i, order[0]);
      var s1 := CloseStream(s, i, order[0]);
      CloseAllInv(s1, i, order[1..]);
      var s' := CloseAllStreams(s, i, order);
      forall u | u in s'.items[i].streams
        ensures u !in order
      {
        assert u in s1.items[i].streams.Keys;
      }
    }
  }

  lemma {:induction false} WithoutKeeps(list: seq<nat>, i: nat, j: nat)
    ensures j in Without(list, i) <==> j in list && j != i
  {
    if list != [] {
      WithoutKeeps(list[1..], i, j);
    }
  }

  lemma DetachInv(s: State, i: nat)
    requires Inv(s) && i < |s.items| && s.items[i].streams == map[]
    ensures Inv(Unlinked(s, i))
  {
    var s' := Unlinked(s, i);
    forall j | 0 <= j < |s'.items|
      ensures ItemOk(s', j) && StreamsOfUsers(s', j)
      ensures !s'.items[j].detached ==> j in s'.list
    {
      assert ItemOk(s, j) && StreamsOfUsers(s, j);
      WithoutKeeps(s.list, i, j);
    }
    forall k | 0 <= k < |s'.list|
      ensures s'.list[k] < |s'.items| && !s'.items[s'.list[k]].detached
    {
      assert s'.list[k] in s'.list;
      WithoutKeeps(s.list, i, s'.list[k]);
    }
    SameDispatch(s, s');
  }

  // Nothing a dispatcher or a channel relies on has changed.
  lemma SameDispatch(s: State, s': State)
    requires Inv(s) && s'.disp == s.disp && s'.chans == s.chans && s'.buffers == s.buffers
    requires (forall t | 0 <= t < |s.disp| :: s.disp[t].Idle?) || (s'.users == s.users && s'.writer == s.writer)
    ensures forall t | 0 <= t < |s'.disp| :: DispOk(s', t)
    ensures forall ch | 0 <= ch < |s'.chans| :: ChanOk(s', ch)
  {
    forall t | 0 <= t < |s'.disp|
      ensures DispOk(s', t)
    {
      assert DispOk(s, t);
    }
    forall ch | 0 <= ch < |s'.chans|
      ensures ChanOk(s', ch)
    {
      assert ChanOk(s, ch);
    }
  }

  // A dispatcher moves on to `d'` without touching anything else.
  lemma MoveInv(s: State, t: nat, d': Dispatcher)
    requires Inv(s) && t < |s.disp|
    requires DispOk(s.(disp := s.disp[t := d']), t)
    requires forall ch | 0 <= ch < |s.chans| :: Pending(s.disp[t], ch) == Pending(d', ch)
    ensures Inv(s.(disp := s.disp[t := d']))
  {
    var s' := s.(disp := s.disp[t := d']);
    forall v | 0 <= v < |s'.disp|
      ensures DispOk(s', v)
    {
      assert DispOk(s, v);
    }
    forall ch | 0 <= ch < |s'.chans|
      ensures ChanOk(s', ch)
    {
      assert ChanOk(s, ch);
    }
    forall i | 0 <= i < |s'.items|
      ensures ItemOk(s', i) && StreamsOfUsers(s', i)
    {
      assert ItemOk(s, i) && StreamsOfUsers(s, i);
    }
  }

  lemma AnnounceInv(s: State, t: nat, s': State)
    requires Inv(s) && Enabled(s, Announce(t)) && Next(s, Announce(t), s')
    ensures Inv(s')
  {
    var d, d' := s.disp[t], s'.disp[t];
    var ch := d.todo[0].ch;
    assert DispOk(s, t) && DeliveryOk(s, t, d.user, d.todo[0]);
    assert Pending(d, ch);
    forall v | 0 <= v < |s'.disp|
      ensures DispOk(s', v)
    {
      assert DispOk(s, v);
    }
    forall c | 0 <= c < |s'.chans|
      ensures ChanOk(s', c)
    {
      assert ChanOk(s, c);
      PendingFirst(d, d', c);
    }
    forall i | 0 <= i < |s'.items|
      ensures ItemOk(s', i) && StreamsOfUsers(s', i)
    {
      assert ItemOk(s, i) && StreamsOfUsers(s, i);
    }
  }

  lemma PendingFirst(d: Dispatcher, d': Dispatcher, ch: nat)
    requires d.Delivering? && d'.Delivering? && d.todo != [] && d.todo[0].isNew && OnceEach(d.todo)
    requires d'.todo == d.todo[0 := d.todo[0].(isNew := false)]
    ensures Pending(d', ch) == (Pending(d, ch) && ch != d.todo[0].ch)
  {
    if Pending(d, ch) && ch != d.todo[0].ch {
      var k :| 0 <= k < |d.todo| && d.todo[k].isNew && d.todo[k].ch == ch;
      assert d'.todo[k].isNew;
    }
    if Pending(d', ch) {
      var k :| 0 <= k < |d'.todo| && d'.todo[k].isNew && d'.todo[k].ch == ch;
      assert k > 0 && d.todo[k].isNew;
    }
  }

  lemma PendingRest(d: Dispatcher, d': Dispatcher, ch: nat)
    requires d.Delivering? && d'.Delivering? && d.todo != [] && !d.todo[0].isNew && d'.todo == d.todo[1..]
    ensures Pending(d', ch) == Pending(d, ch)
  {
    if Pending(d, ch) {
      var k :| 0 <= k < |d.todo| && d.todo[k].isNew && d.todo[k].ch == ch;
      assert d'.todo[k - 1] == d.todo[k];
    }
    if Pending(d', ch) {
      var k :| 0 <= k < |d'.todo| && d'.todo[k].isNew && d'.todo[k].ch == ch;
      assert d.todo[k + 1] == d'.todo[k];
    }
  }

  // A channel's queue changes; nothing else does.
  lemma QueueInv(s: State, ch: nat, queue: seq<Packet>)
    requires Inv(s) && ch < |s.chans| && |queue| <= Capacity(s)
    requires forall k | 0 <= k < |queue| :: queue[k].sender == s.chans[ch].user
    ensures Inv(s.(chans := s.chans[ch := s.chans[ch].(queue := queue)]))
  {
    var s' := s.(chans := s.chans[ch := s.chans[ch].(queue := queue)]);
    forall v | 0 <= v < |s'.disp|
      ensures DispOk(s', v)
    {
      assert DispOk(s, v);
    }
    forall c | 0 <= c < |s'.chans|
      ensures ChanOk(s', c)
    {
      assert ChanOk(s, c);
    }
    forall i | 0 <= i < |s'.items|
      ensures ItemOk(s', i) && StreamsOfUsers(s', i)
    {
      assert ItemOk(s, i) && StreamsOfUsers(s, i);
    }
  }

  lemma SendInv(s: State, t: nat, s': State)
    requires Inv(s) && Enabled(s, Send(t)) && Next(s, Send(t), s')
    ensures Inv(s')
  {
    var d := s.disp[t];
    var first := d.todo[0];
    assert DispOk(s, t) && DeliveryOk(s, t, d.user, first);
    var sent := s;
    if Active(s, first, d.user) {
      assert ItemOk(s, first.item) && Owns(s, first.item, d.user, first.ch);
      assert ChanOk(s, first.ch);
      sent := SendOn(s, first.ch, d.packet);
      if |s.chans[first.ch].queue| < Capacity(s) {
        QueueInv(s, first.ch, s.chans[first.ch].queue + [d.packet]);
      }
    }
    var d' := d.(todo := d.todo[1..]);
    forall ch | 0 <= ch < |sent.chans|
      ensures Pending(d, ch) == Pending(d', ch)
    {
      PendingRest(d, d', ch);
    }
    assert DispOk(sent, t);
    RestOk(sent, t, d');
    MoveInv(sent, t, d');
  }

  lemma RestOk(s: State, t: nat, d': Dispatcher)
    requires t < |s.disp| && s.disp[t].Delivering? && s.disp[t].todo != [] && DispOk(s, t)
    requires d' == s.disp[t].(todo := s.disp[t].todo[1..])
    ensures DispOk(s.(disp := s.disp[t := d']), t)
  {
    var d, s' := s.disp[t], s.(disp := s.disp[t := d']);
    forall k | 0 <= k < |d'.todo|
      ensures DeliveryOk(s', t, d'.user, d'.todo[k])
    {
      assert DeliveryOk(s, t, d.user, d.todo[k + 1]);
    }
  }

  lemma CollectInv(s: State, t: nat, id: nat, s': State)
    requires Inv(s) && Enabled(s, Collect(t, id)) && Next(s, Collect(t, id), s')
    ensures Inv(s')
  {
    var u := s.disp[t].user;
    var d' := Delivering(u, Packet(u, id), []);
    assert DispOk(s, t);
    MoveInv(s, t, d');
    VisitAllInv(s.(disp := s.disp[t := d']), t, s.list);
  }

  lemma CloseStreamsInv(s: State, s': State)
    requires Inv(s) && Enabled(s, CloseStreams) && Next(s, CloseStreams, s')
    ensures Inv(s')
  {
    var u := s.writer.user;
    CloseForUserInv(s, s.list, u);
    var c := CloseForUser(s, s.list, u);
    AllIdle(s);
    SameDispatch(c, s');
    forall i | 0 <= i < |s'.items|
      ensures ItemOk(s', i) && StreamsOfUsers(s', i)
    {
      assert ItemOk(c, i) && StreamsOfUsers(c, i);
      if !c.items[i].detached {
        assert i in c.list;
      }
    }
  }

  lemma AllIdle(s: State)
    requires Inv(s) && !s.writer.Nobody?
    ensures forall t | 0 <= t < |s.disp| :: s.disp[t].Idle?
  {
    forall t | 0 <= t < |s.disp|
      ensures s.disp[t].Idle?
    {
      assert DispOk(s, t);
    }
  }

  lemma UsersInv(s: State, a: Action, s': State)
    requires Inv(s) && Enabled(s, a) && Next(s, a, s')
    requires a in {WriteLock, WriteUnlock} || a.AddUser? || a.RemoveUser?
    ensures Inv(s')
  {
    if !a.WriteLock? {
      AllIdle(s);
    }
    SameDispatch(s, s');
    forall i | 0 <= i < |s'.items|
      ensures ItemOk(s', i) && StreamsOfUsers(s', i)
    {
      assert ItemOk(s, i) && StreamsOfUsers(s, i);
      if a.RemoveUser? {
        forall u | u in s'.items[i].streams
          ensures u in s'.users.Values || s'.writer == Removed(u)
        {
          var b :| b in s.users && s.users[b] == u;
          assert b != a.session ==> b in s'.users && s'.users[b] == u;
        }
      } else if a.AddUser? {
        forall u | u in s'.items[i].streams
          ensures u in s'.users.Values
        {
          var b :| b in s.users && s.users[b] == u;
          assert b in s'.users && s'.users[b] == u;
        }
      }
    }
  }

  lemma AttachInv(s: State, s': State)
    requires Inv(s) && Next(s, Attach, s')
    ensures Inv(s')
  {
    SameDispatch(s, s');
    forall i | 0 <= i < |s'.items|
      ensures ItemOk(s', i) && StreamsOfUsers(s', i)
      ensures i in s'.list || s'.items[i].detached
    {
      if i < |s.items| {
        assert ItemOk(s, i) && StreamsOfUsers(s, i);
      } else {
        assert s'.list[|s.list|] == i;
      }
    }
  }

  lemma DetachStepInv(s: State, i: nat, s': State)
    requires Inv(s) && i < |s.items| && Next(s, Detach(i), s')
    ensures Inv(s')
  {
    hide Inv;
    if !s.items[i].detached {
      var order :|
        && (forall u :: u in order <==> u in s.items[i].streams)
        && (forall j, k | 0 <= j < k < |order| :: order[j] != order[k])
        && s' == Unlinked(CloseAllStreams(s, i, order), i);
      CloseAllInv(s, i, order);
      var c := CloseAllStreams(s, i, order);
      assert c.items[i].streams.Keys <= s.items[i].streams.Keys;
      assert forall u :: u !in c.items[i].streams.Keys;
      assert c.items[i].streams == map[];
      DetachInv(c, i);
    }
  }

  lemma ReaderInv(s: State, a: Action, s': State)
    requires Inv(s) && Enabled(s, a) && Next(s, a, s')
    requires a.ReadLock? || a.ReadUnlock? || a.Finish?
    ensures Inv(s')
  {
    match a
    case ReadLock(t, session) =>
      assert s.users[session] in s.users.Values;
      MoveInv(s, t, Holding(s.users[session]));
    case Finish(t) =>
      assert DispOk(s, t);
      MoveInv(s, t, Holding(s.disp[t].user));
    case ReadUnlock(t) => MoveInv(s, t, Idle);
  }

  lemma ConsumeInv(s: State, ch: nat, s': State)
    requires Inv(s) && Enabled(s, Consume(ch)) && Next(s, Consume(ch), s')
    ensures Inv(s')
  {
    assert ChanOk(s, ch);
    QueueInv(s, ch, s.chans[ch].queue[1..]);
  }

  lemma StepInv(s: State, a: Action, s': State)
    requires Inv(s) && Enabled(s, a) && Next(s, a, s')
    ensures Inv(s')
  {
    hide Inv, Next;
    match a
    case Attach => AttachInv(s, s');
    case Detach(i) => DetachStepInv(s, i, s');
    case Collect(t, id) => CollectInv(s, t, id, s');
    case Announce(t) => AnnounceInv(s, t, s');
    case Send(t) => SendInv(s, t, s');
    case CloseStreams => CloseStreamsInv(s, s');
    case Consume(ch) => ConsumeInv(s, ch, s');
    case ReadLock(_, _) => ReaderInv(s, a, s');
    case ReadUnlock(_) => ReaderInv(s, a, s');
    case Finish(_) => ReaderInv(s, a, s');
    case _ => UsersInv(s, a, s');
  }

  // ---------------------------------------------------------------- every interleaving

  ghost predicate Step(s: State, s': State) {
    exists a :: Enabled(s, a) && Next(s, a, s')
  }

  ghost predicate IsRun(run: seq<State>) {
    && |run| > 0
    && run[0] == Start(|run[0].disp|, run[0].buffers)
    && forall i | 0 < i < |run| :: Step(run[i - 1], run[i])
  }

  lemma {:induction false} RunInv(run: seq<State>, i: nat)
    requires IsRun(run) && i < |run|
    ensures Inv(run[i])
  {
    if i == 0 {
      StartInv(|run[0].disp|, run[0].buffers);
    } else {
      RunInv(run, i - 1);
      assert Step(run[i - 1], run[i]);
      var a :| Enabled(run[i - 1], a) && Next(run[i - 1], a, run[i]);
      StepInv(run[i - 1], a, run[i]);
    }
  }

  /** No packet is ever sent on a closed stream and no stream is ever closed twice. */
  lemma NeverPanics(run: seq<State>, i: nat)
    requires IsRun(run) && i < |run|
    ensures !run[i].panicked
  {
    RunInv(run, i);
  }

  /** A stream is announced to its listener at most once, and exactly once by the time its dispatcher is done. */
  lemma AnnouncedOnce(run: seq<State>, i: nat, ch: nat)
    requires IsRun(run) && i < |run| && ch < |run[i].chans|
    ensures var c := run[i].chans[ch];
            && c.creator < |run[i].disp| && c.announced <= 1
            && (!run[i].disp[c.creator].Delivering? ==> c.announced == 1)
  {
    RunInv(run, i);
    assert ChanOk(run[i], ch);
  }

  /** Between user removals, every stream of every listener is open and belongs to a connected user;
      a detached listener has none. */
  lemma StreamsBelongToUsers(run: seq<State>, i: nat, l: nat, u: User)
    requires IsRun(run) && i < |run| && l < |run[i].items| && u in run[i].items[l].streams
    requires run[i].writer.Nobody?
    ensures u in run[i].users.Values && !run[i].items[l].detached
    ensures var ch := run[i].items[l].streams[u];
            ch < |run[i].chans| && !run[i].chans[ch].closed
            && run[i].chans[ch].item == l && run[i].chans[ch].user == u
  {
    RunInv(run, i);
    var s := run[i];
    assert ItemOk(s, l) && StreamsOfUsers(s, l) && Owns(s, l, u, s.items[l].streams[u]);
  }

  /** A stream carries only its own user's packets, and never more than the configured number. */
  lemma StreamsCarryTheirUser(run: seq<State>, i: nat, ch: nat, k: nat)
    requires IsRun(run) && i < |run| && ch < |run[i].chans| && k < |run[i].chans[ch].queue|
    ensures run[i].chans[ch].queue[k].sender == run[i].chans[ch].user
    ensures |run[i].chans[ch].queue| <= Capacity(run[i])
  {
    RunInv(run, i);
    assert ChanOk(run[i], ch);
  }
}
