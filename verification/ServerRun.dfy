/** Whole runs of the server's messages: what holds after any sequence of them, and when the channel tree stays a tree. */
module ServerRun {
  import opened Options
  import opened ServerGraph

  datatype Message<C, U> =
    | ChannelMessage(state: ChannelState, channelSpare: C)
    | ChannelGone(channelId: Option<nat>)
    | UserMessage(user: UserState, userSpare: U)
    | UserGone(session: Option<nat>, actor: Option<nat>)
    | Permissions(channel: Option<nat>, bits: Option<nat>, flush: bool)

  function Empty<C(==), U(==)>(): Graph<C, U> {
    Graph(map[], map[], map[], map[], map[], map[], map[], map[], map[], map[], map[])
  }

  function Step<C(==), U(==)>(g: Graph<C, U>, m: Message<C, U>): Graph<C, U> {
    match m
    case ChannelMessage(state, spare) => OnChannelState(g, state, spare).0
    case ChannelGone(id) => OnChannelRemove(g, id).0
    case UserMessage(state, spare) => OnUserState(g, state, spare).0
    case UserGone(session, actor) => OnUserRemove(g, session, actor).0
    case Permissions(channel, bits, flush) => OnPermissionQuery(g, channel, bits, flush).0
  }

  /** An object a message may create is not already in use. */
  ghost predicate Fresh<C, U>(g: Graph<C, U>, m: Message<C, U>) {
    (m.ChannelMessage? ==> m.channelSpare !in g.id) && (m.UserMessage? ==> m.userSpare !in g.session)
  }

  function After<C(==), U(==)>(ms: seq<Message<C, U>>): Graph<C, U>
    decreases |ms|
  {
    if ms == [] then Empty() else Step(After(ms[..|ms| - 1]), ms[|ms| - 1])
  }

  ghost predicate FreshAt<C, U>(ms: seq<Message<C, U>>, k: nat)
    requires k < |ms|
  {
    Fresh(After(ms[..k]), ms[k])
  }

  ghost predicate Allocated<C, U>(ms: seq<Message<C, U>>) {
    forall k | 0 <= k < |ms| :: FreshAt(ms, k)
  }

  // ---------------------------------------------------------------- the invariant over runs

  lemma EmptyInv<C, U>()
    ensures Inv(Empty<C, U>())
  {
  }

  lemma StepKeeps<C, U>(g: Graph<C, U>, m: Message<C, U>)
    requires Inv(g) && Fresh(g, m)
    ensures Inv(Step(g, m))
  {
    match m {
      case ChannelMessage(state, spare) => ChannelStateKeeps(g, state, spare);
      case ChannelGone(id) => ChannelRemoveKeeps(g, id);
      case UserMessage(state, spare) => UserStateKeeps(g, state, spare);
      case UserGone(session, actor) => UserRemoveKeeps(g, session, actor);
      case Permissions(channel, bits, flush) => PermissionQueryKeeps(g, channel, bits, flush);
    }
    hide Inv, OnChannelState, OnChannelRemove, OnUserState, OnUserRemove, OnPermissionQuery;
  }

  lemma Prefixes<C, U>(ms: seq<Message<C, U>>, k: nat)
    requires Allocated(ms) && k <= |ms|
    ensures Allocated(ms[..k])
  {
    forall j | 0 <= j < k ensures FreshAt(ms[..k], j) {
      assert FreshAt(ms, j);
      assert ms[..k][..j] == ms[..j];
    }
  }

  /** Every reachable graph, rejected messages included, satisfies the invariant. */
  lemma {:induction false} AlwaysInv<C, U>(ms: seq<Message<C, U>>)
    requires Allocated(ms)
    ensures Inv(After(ms))
    decreases |ms|
  {
    if ms == [] {
      EmptyInv<C, U>();
    } else {
      var n := |ms| - 1;
      Prefixes(ms, n);
      AlwaysInv(ms[..n]);
      assert FreshAt(ms, n);
      StepKeeps(After(ms[..n]), ms[n]);
    }
    hide Inv, Step;
  }

  /** After any run, no user is in two channels, live or removed; its channel is the one that lists it, and it is still
      connected under the session it is listed by. */
  lemma NeverInTwoChannels<C, U>(ms: seq<Message<C, U>>, s: nat, t: nat, c: C, d: C, u: U)
    requires Allocated(ms) && Has(After(ms).members, c, s, u) && Has(After(ms).members, d, t, u)
    ensures c == d && s == t && Sits(After(ms), s, c) && After(ms).users[s] == u
  {
    hide After, Inv, Has;
    AlwaysInv(ms);
    InOneChannel(After(ms), s, t, c, d, u);
    Seated(After(ms), s, c, u);
  }

  // ---------------------------------------------------------------- walks up a parent map

  lemma {:induction false} UpNone<C>(parent: map<C, Option<C>>, n: nat)
    ensures Up(parent, None, n) == None
    decreases n
  {
    if n > 0 { UpNone(parent, n - 1); }
  }

  lemma {:induction false} UpAdd<C>(parent: map<C, Option<C>>, x: Option<C>, m: nat, n: nat)
    ensures Up(parent, x, m + n) == Up(parent, Up(parent, x, m), n)
    decreases m
  {
    if m > 0 { UpAdd(parent, ParentOf(parent, x), m - 1, n); }
  }

  ghost predicate Within<C>(parent: map<C, Option<C>>, x: Option<C>, c: C, steps: nat) {
    exists k: nat :: k < steps && Up(parent, x, k) == Some(c)
  }

  lemma WithinStep<C>(parent: map<C, Option<C>>, x: Option<C>, c: C, steps: nat)
    requires steps > 0
    ensures Within(parent, x, c, steps) <==> x == Some(c) || Within(parent, ParentOf(parent, x), c, steps - 1)
  {
    var p := ParentOf(parent, x);
    assert Up(parent, x, 0) == x;
    if Within(parent, p, c, steps - 1) {
      var k: nat :| k < steps - 1 && Up(parent, p, k) == Some(c);
      assert Up(parent, x, k + 1) == Some(c);
    }
    if Within(parent, x, c, steps) {
      var k: nat :| k < steps && Up(parent, x, k) == Some(c);
      assert k == 0 || Up(parent, p, k - 1) == Some(c);
    }
  }

  /** The bounded walk finds the channel exactly when it is among the first `steps` objects. */
  lemma {:induction false} WalkFinds<C>(parent: map<C, Option<C>>, x: Option<C>, c: C, steps: nat)
    ensures IsDescendant(parent, x, c, steps) <==> Within(parent, x, c, steps)
    decreases steps
  {
    if x.None? {
      forall k: nat ensures Up(parent, x, k) == None { UpNone(parent, k); }
    } else if steps > 0 {
      WalkFinds(parent, ParentOf(parent, x), c, steps - 1);
      WithinStep(parent, x, c, steps);
      hide Within;
    }
  }

  /** Up to the first visit of `c`, giving `c` a new parent changes no walk. */
  lemma {:induction false} Detour<C>(parent: map<C, Option<C>>, c: C, p: Option<C>, x: Option<C>, n: nat)
    requires forall k: nat | k < n :: Up(parent, x, k) != Some(c)
    ensures Up(parent[c := p], x, n) == Up(parent, x, n)
    decreases n
  {
    if n > 0 {
      assert Up(parent, x, 0) == x;
      var y := ParentOf(parent, x);
      forall k: nat | k < n - 1 ensures Up(parent, y, k) != Some(c) {
        assert Up(parent, x, k + 1) == Up(parent, y, k);
      }
      Detour(parent, c, p, y, n - 1);
    }
  }

  lemma {:induction false} FirstVisit<C>(parent: map<C, Option<C>>, x: Option<C>, c: C, n: nat) returns (k: nat)
    requires Up(parent, x, n) == Some(c)
    ensures k <= n && Up(parent, x, k) == Some(c) && forall j: nat | j < k :: Up(parent, x, j) != Some(c)
    decreases n
  {
    k := n;
    if j: nat :| j < n && Up(parent, x, j) == Some(c) {
      k := FirstVisit(parent, x, c, j);
    }
  }

  /** A walk that comes back to its start never ends. */
  lemma {:induction false} LoopNeverEnds<C>(parent: map<C, Option<C>>, c: C, period: nat, n: nat)
    requires period > 0 && Up(parent, Some(c), period) == Some(c)
    ensures Up(parent, Some(c), n) != None
    decreases n
  {
    if n >= period {
      UpAdd(parent, Some(c), period, n - period);
      LoopNeverEnds(parent, c, period, n - period);
    } else {
      UpAdd(parent, Some(c), n, period - n);
      UpNone(parent, period - n);
    }
  }

  ghost predicate Above<C>(parent: map<C, Option<C>>, p: Option<C>, c: C) {
    exists n: nat :: Up(parent, p, n) == Some(c)
  }

  lemma RootedAfter<C>(parent: map<C, Option<C>>, x: Option<C>, m: nat)
    requires Rooted(parent, Up(parent, x, m))
    ensures Rooted(parent, x)
  {
    var n: nat :| Up(parent, Up(parent, x, m), n) == None;
    UpAdd(parent, x, m, n);
  }

  lemma MovedWalks<C>(parent: map<C, Option<C>>, c: C, p: Option<C>, x: Option<C>)
    requires Rooted(parent, x) && Rooted(parent[c := p], Some(c))
    ensures Rooted(parent[c := p], x)
  {
    var after := parent[c := p];
    if n: nat :| Up(parent, x, n) == Some(c) {
      var k := FirstVisit(parent, x, c, n);
      Detour(parent, c, p, x, k);
      RootedAfter(after, x, k);
    } else {
      var n: nat :| Up(parent, x, n) == None;
      Detour(parent, c, p, x, n);
    }
  }

  /** Giving `c` the parent `p` keeps a forest a forest exactly when `c` is not above `p`. */
  lemma ForestKept<C>(parent: map<C, Option<C>>, c: C, p: Option<C>)
    requires Acyclic(parent) && c in parent && (p.Some? ==> p.value in parent)
    ensures Acyclic(parent[c := p]) <==> !Above(parent, p, c)
  {
    var after := parent[c := p];
    assert Up(after, Some(c), 0) == Some(c);
    if n: nat :| Up(parent, p, n) == Some(c) {
      var k := FirstVisit(parent, p, c, n);
      Detour(parent, c, p, p, k);
      assert Up(after, Some(c), k + 1) == Up(after, p, k);
      forall j: nat ensures Up(after, Some(c), j) != None { LoopNeverEnds(after, c, k + 1, j); }
      assert !Rooted(after, Some(c));
    } else {
      UpNone(parent, 0);
      assert Rooted(parent, p);
      var n: nat :| Up(parent, p, n) == None;
      Detour(parent, c, p, p, n);
      assert Up(after, Some(c), n + 1) == Up(after, p, n);
      assert Rooted(after, Some(c));
      forall x | x in after ensures Rooted(after, Some(x)) {
        if x != c { MovedWalks(parent, c, p, Some(x)); }
      }
    }
  }

  // ---------------------------------------------------------------- the tree over runs

  /** `c` is above `p`, but too far above for the bounded walk. */
  ghost predicate FarAbove<C>(parent: map<C, Option<C>>, p: Option<C>, c: C) {
    exists n: nat :: n > MAX_CHANNEL_DEPTH && Up(parent, p, n) == Some(c)
  }

  /** The message moves a known channel under a channel more than 1024 levels below it. */
  ghost predicate TooDeep<C, U>(g: Graph<C, U>, m: Message<C, U>) {
    && m.ChannelMessage? && m.state.id.Some? && m.state.parent.Some? && m.state.id.value in g.channels
    && FarAbove(g.parent, Lookup(g.channels, m.state.parent.value), g.channels[m.state.id.value])
  }

  lemma MoveToParent<C, U>(g: Graph<C, U>, c: C, i: nat, parent: nat)
    ensures var p := Lookup(g.channels, parent);
      MoveTo(g, c, i, Some(parent)).parent == if IsDescendant(g.parent, p, c, MAX_CHANNEL_DEPTH + 1) then g.parent else g.parent[c := p]
    ensures MoveTo(g, c, i, None).parent == g.parent
  {
    hide IsDescendant, AddChild, DropChild;
  }

  /** In a forest no object is above `p` at two distances. */
  lemma OneDistance<C>(parent: map<C, Option<C>>, p: Option<C>, c: C, m: nat, n: nat)
    requires Acyclic(parent) && c in parent && m < n && Up(parent, p, m) == Some(c)
    ensures Up(parent, p, n) != Some(c)
  {
    UpAdd(parent, p, m, n - m);
    if Up(parent, Some(c), n - m) == Some(c) {
      var k: nat :| Up(parent, Some(c), k) == None;
      LoopNeverEnds(parent, c, n - m, k);
    }
  }

  lemma MovedForest<C>(parent: map<C, Option<C>>, c: C, p: Option<C>)
    requires Acyclic(parent) && c in parent && (p.Some? ==> p.value in parent)
    ensures var seen := IsDescendant(parent, p, c, MAX_CHANNEL_DEPTH + 1);
      Acyclic(if seen then parent else parent[c := p]) <==> !FarAbove(parent, p, c)
  {
    WalkFinds(parent, p, c, MAX_CHANNEL_DEPTH + 1);
    ForestKept(parent, c, p);
    if m: nat :| m < MAX_CHANNEL_DEPTH + 1 && Up(parent, p, m) == Some(c) {
      forall n: nat | n > MAX_CHANNEL_DEPTH ensures Up(parent, p, n) != Some(c) { OneDistance(parent, p, c, m, n); }
    }
  }

  ghost predicate Closed<C>(parent: map<C, Option<C>>) {
    forall c | c in parent && parent[c].Some? :: parent[c].value in parent
  }

  /** A new object without parent is on no walk but its own. */
  lemma {:induction false} NotOnOldWalks<C>(parent: map<C, Option<C>>, c: C, x: Option<C>, n: nat)
    requires Closed(parent) && c !in parent && (x.Some? ==> x.value in parent)
    ensures Up(parent[c := None], x, n) == Up(parent, x, n) != Some(c)
    decreases n
  {
    if n > 0 { NotOnOldWalks(parent, c, ParentOf(parent, x), n - 1); }
  }

  lemma CreateForest<C>(parent: map<C, Option<C>>, c: C, x: Option<C>)
    requires Closed(parent) && Acyclic(parent) && c !in parent && (x.Some? ==> x.value in parent || x.value == c)
    ensures Acyclic(parent[c := None]) && !FarAbove(parent[c := None], x, c)
  {
    var after := parent[c := None];
    assert Up(after, Some(c), 1) == Up(after, None, 0) == None;
    forall y | y in after ensures Rooted(after, Some(y)) {
      if y != c {
        var n: nat :| Up(parent, Some(y), n) == None;
        NotOnOldWalks(parent, c, Some(y), n);
      }
    }
    forall n: nat | n > MAX_CHANNEL_DEPTH ensures Up(after, x, n) != Some(c) {
      if x == Some(c) {
        assert Up(after, x, 0) == x;
        OneDistance(after, x, c, 0, n);
      } else {
        NotOnOldWalks(parent, c, x, n);
      }
    }
  }

  lemma InvClosed<C, U>(g: Graph<C, U>)
    requires Inv(g)
    ensures Closed(g.parent) && g.parent.Keys == g.id.Keys && forall i | i in g.channels :: g.channels[i] in g.parent
  {
  }

  lemma ParentOnlyMoves<C, U>(g: Graph<C, U>, m: ChannelState, spare: C)
    ensures m.id.None? ==> OnChannelState(g, m, spare).0 == g
    ensures m.id.Some? ==>
      var (c, g1) := Subject(g, m.id.value, spare); OnChannelState(g, m, spare).0.parent == MoveTo(g1, c, m.id.value, m.parent).parent
  {
    hide MoveTo, Relink, Rename;
  }

  lemma KnownChannelForest<C, U>(g: Graph<C, U>, m: Message<C, U>)
    requires Inv(g) && Acyclic(g.parent) && m.ChannelMessage? && m.state.id.Some? && m.state.id.value in g.channels
    ensures Acyclic(Step(g, m).parent) <==> !TooDeep(g, m)
  {
    hide Inv, MoveTo, OnChannelState, IsDescendant, FarAbove, Acyclic;
    var i := m.state.id.value;
    ParentOnlyMoves(g, m.state, m.channelSpare);
    InvClosed(g);
    if m.state.parent.Some? {
      MovedForest(g.parent, g.channels[i], Lookup(g.channels, m.state.parent.value));
      MoveToParent(g, g.channels[i], i, m.state.parent.value);
    } else {
      MoveToParent(g, g.channels[i], i, 0);
    }
  }

  lemma NewChannelForest<C, U>(g: Graph<C, U>, m: Message<C, U>)
    requires Inv(g) && Acyclic(g.parent) && m.ChannelMessage? && m.state.id.Some? && m.state.id.value !in g.channels
    requires Fresh(g, m)
    ensures Acyclic(Step(g, m).parent)
  {
    hide Inv, MoveTo, OnChannelState, IsDescendant, FarAbove, Acyclic, Closed;
    var i, c := m.state.id.value, m.channelSpare;
    var g1 := Create(g, i, c);
    ParentOnlyMoves(g, m.state, c);
    InvClosed(g);
    CreateForest(g.parent, c, None);
    if m.state.parent.Some? {
      var p := Lookup(g1.channels, m.state.parent.value);
      CreateForest(g.parent, c, p);
      MovedForest(g1.parent, c, p);
      MoveToParent(g1, c, i, m.state.parent.value);
    } else {
      MoveToParent(g1, c, i, 0);
    }
  }

  lemma MoveUserParents<C, U>(g: Graph<C, U>, u: U, s: nat, channel: Option<nat>)
    ensures MoveUser(g, u, s, channel).0.parent == g.parent
  {
    LeaveFrame(g, u, s);
  }

  lemma UserStateParents<C, U>(g: Graph<C, U>, m: UserState, spare: U)
    ensures OnUserState(g, m, spare).0.parent == g.parent
  {
    if m.session.Some? {
      var (u, g1) := Person(g, m.session.value, spare);
      MoveUserParents(g1, u, m.session.value, m.channel);
      assert g1.parent == g.parent;
      hide Person, MoveUser;
    }
  }

  lemma UserRemoveParents<C, U>(g: Graph<C, U>, session: Option<nat>, actor: Option<nat>)
    ensures OnUserRemove(g, session, actor).0.parent == g.parent
  {
    hide Leave;
    if session.Some? && session.value in g.users { LeaveFrame(g, g.users[session.value], session.value); }
  }

  lemma OthersKeepParents<C, U>(g: Graph<C, U>, m: Message<C, U>)
    requires m.ChannelMessage? ==> m.state.id.None?
    ensures Step(g, m).parent == g.parent
  {
    hide OnUserState, OnUserRemove, OnChannelRemove, OnChannelState, OnPermissionQuery, MoveTo;
    match m {
      case ChannelMessage(state, spare) => ParentOnlyMoves(g, state, spare);
      case ChannelGone(id) => RemoveParents(g, id);
      case UserMessage(state, spare) => UserStateParents(g, state, spare);
      case UserGone(session, actor) => UserRemoveParents(g, session, actor);
      case Permissions(channel, bits, flush) => PermissionParents(g, channel, bits, flush);
    }
  }

  lemma PermissionParents<C, U>(g: Graph<C, U>, channel: Option<nat>, bits: Option<nat>, flush: bool)
    ensures OnPermissionQuery(g, channel, bits, flush).0.parent == g.parent
  {
  }

  lemma RemoveParents<C, U>(g: Graph<C, U>, id: Option<nat>)
    ensures OnChannelRemove(g, id).0.parent == g.parent
  {
  }

  /** One message keeps the channel tree free of cycles exactly when it does not move a channel under one more than
      1024 levels below it. */
  lemma StepForest<C, U>(g: Graph<C, U>, m: Message<C, U>)
    requires Inv(g) && Fresh(g, m) && Acyclic(g.parent)
    ensures Acyclic(Step(g, m).parent) <==> !TooDeep(g, m)
  {
    if !m.ChannelMessage? || m.state.id.None? {
      OthersKeepParents(g, m);
    } else if m.state.id.value in g.channels {
      KnownChannelForest(g, m);
    } else {
      NewChannelForest(g, m);
    }
    hide Inv, Step, Acyclic, FarAbove, Fresh;
  }

  ghost predicate ForestAt<C, U>(ms: seq<Message<C, U>>, k: nat)
    requires k <= |ms|
  {
    Acyclic(After(ms[..k]).parent)
  }

  ghost predicate TooDeepAt<C, U>(ms: seq<Message<C, U>>, k: nat)
    requires k < |ms|
  {
    TooDeep(After(ms[..k]), ms[k])
  }

  /** The tree is free of cycles at the start and after every message. */
  ghost predicate AlwaysAForest<C, U>(ms: seq<Message<C, U>>) {
    forall k | 0 <= k <= |ms| :: ForestAt(ms, k)
  }

  ghost predicate NeverTooDeep<C, U>(ms: seq<Message<C, U>>) {
    forall k | 0 <= k < |ms| :: !TooDeepAt(ms, k)
  }

  lemma SamePrefix<C, U>(ms: seq<Message<C, U>>, n: nat, k: nat)
    requires k <= n <= |ms|
    ensures ForestAt(ms[..n], k) == ForestAt(ms, k)
    ensures k < n ==> TooDeepAt(ms[..n], k) == TooDeepAt(ms, k)
  {
    assert ms[..n][..k] == ms[..k];
    hide Acyclic, TooDeep, After;
  }

  lemma LastAt<C, U>(ms: seq<Message<C, U>>)
    ensures ForestAt(ms, |ms|) == Acyclic(After(ms).parent)
    ensures ms != [] ==> TooDeepAt(ms, |ms| - 1) == TooDeep(After(ms[..|ms| - 1]), ms[|ms| - 1])
  {
    assert ms[..|ms|] == ms;
    hide Acyclic, TooDeep, After;
  }

  lemma ForestExtends<C, U>(ms: seq<Message<C, U>>)
    requires ms != []
    ensures AlwaysAForest(ms) <==> AlwaysAForest(ms[..|ms| - 1]) && Acyclic(After(ms).parent)
  {
    hide ForestAt, Acyclic, After;
    var n := |ms| - 1;
    LastAt(ms);
    forall k | 0 <= k <= n ensures ForestAt(ms[..n], k) == ForestAt(ms, k) { SamePrefix(ms, n, k); }
  }

  lemma DepthExtends<C, U>(ms: seq<Message<C, U>>)
    requires ms != []
    ensures NeverTooDeep(ms) <==> NeverTooDeep(ms[..|ms| - 1]) && !TooDeep(After(ms[..|ms| - 1]), ms[|ms| - 1])
  {
    hide TooDeepAt, TooDeep, After;
    var n := |ms| - 1;
    LastAt(ms);
    forall k | 0 <= k < n ensures TooDeepAt(ms[..n], k) == TooDeepAt(ms, k) { SamePrefix(ms, n, k); }
  }

  lemma LastForest<C, U>(ms: seq<Message<C, U>>)
    requires AlwaysAForest(ms)
    ensures Acyclic(After(ms).parent)
  {
    assert ms[..|ms|] == ms && ForestAt(ms, |ms|);
  }

  /** Throughout a run the channel tree has no cycle exactly when no message of it moves a channel under one more than
      1024 levels below it. */
  lemma {:induction false} AlwaysForest<C, U>(ms: seq<Message<C, U>>)
    requires Allocated(ms)
    ensures AlwaysAForest(ms) <==> NeverTooDeep(ms)
    decreases |ms|
  {
    if ms == [] {
      assert ForestAt(ms, 0);
    } else {
      var n := |ms| - 1;
      Prefixes(ms, n);
      AlwaysForest(ms[..n]);
      AlwaysInv(ms[..n]);
      assert FreshAt(ms, n);
      ForestExtends(ms);
      DepthExtends(ms);
      if AlwaysAForest(ms[..n]) {
        LastForest(ms[..n]);
        StepForest(After(ms[..n]), ms[n]);
      }
      hide Inv, Acyclic, TooDeep, Step, Fresh, AlwaysAForest, NeverTooDeep;
    }
  }

  /** No message is such a move while the proposed parent has at most 1025 objects on its walk to the root. */
  lemma ShortChains<C, U>(g: Graph<C, U>, m: Message<C, U>)
    requires m.ChannelMessage? && m.state.parent.Some?
    requires Up(g.parent, Lookup(g.channels, m.state.parent.value), MAX_CHANNEL_DEPTH + 1) == None
    ensures !TooDeep(g, m)
  {
    var p := Lookup(g.channels, m.state.parent.value);
    forall n: nat | n > MAX_CHANNEL_DEPTH ensures Up(g.parent, p, n) == None {
      UpAdd(g.parent, p, MAX_CHANNEL_DEPTH + 1, n - MAX_CHANNEL_DEPTH - 1);
      UpNone(g.parent, n - MAX_CHANNEL_DEPTH - 1);
    }
  }

  // ---------------------------------------------------------------- runs that make a cycle

  /** The path 0 <- 1 <- ... <- n - 1 as channel objects. */
  function Path(n: nat): map<nat, Option<nat>> {
    if n == 0 then map[] else Path(n - 1)[n - 1 := if n == 1 then None else Some(n - 2)]
  }

  lemma {:induction false} PathAt(n: nat, k: nat)
    ensures k in Path(n) <==> k < n
    ensures k < n ==> Path(n)[k] == if k == 0 then None else Some(k - 1)
  {
    if n > 0 { PathAt(n - 1, k); }
  }

  lemma {:induction false} UpPath(n: nat, k: nat, d: nat)
    requires k < n
    ensures Up(Path(n), Some(k), d) == if d <= k then Some(k - d) else None
    decreases k
  {
    PathAt(n, k);
    if d > 0 {
      if k == 0 { UpNone(Path(n), d - 1); } else { UpPath(n, k - 1, d - 1); }
    }
  }

  lemma PathForest(n: nat)
    ensures Acyclic(Path(n)) && Closed(Path(n))
  {
    forall k | k in Path(n) ensures Rooted(Path(n), Some(k)) {
      PathAt(n, k);
      UpPath(n, k, k + 1);
    }
    forall k | k in Path(n) && Path(n)[k].Some? ensures Path(n)[k].value in Path(n) {
      PathAt(n, k);
      PathAt(n, k - 1);
    }
  }

  function Under(k: nat, parent: Option<nat>, spare: nat): Message<nat, nat> {
    ChannelMessage(ChannelState(Some(k), parent, None, [], [], []), spare)
  }

  function Next(n: nat): Message<nat, nat> {
    Under(n, if n == 0 then None else Some(n - 1), n)
  }

  /** Creates channel 0, then channel k under channel k - 1 for every k below n. */
  function LongRun(n: nat): seq<Message<nat, nat>> {
    if n == 0 then [] else LongRun(n - 1) + [Next(n - 1)]
  }

  ghost predicate Same(m: map<nat, nat>, n: nat) {
    forall k: nat :: (k in m <==> k < n) && (k in m ==> m[k] == k)
  }

  ghost predicate IsPath(g: Graph<nat, nat>, n: nat) {
    g.parent == Path(n) && Same(g.id, n) && Same(g.channels, n)
  }

  lemma NotBelow(n: nat, p: Option<nat>)
    requires p.Some? ==> p.value < n
    ensures !IsDescendant(Path(n)[n := None], p, n, MAX_CHANNEL_DEPTH + 1)
  {
    PathForest(n);
    PathAt(n, n);
    if p.Some? { PathAt(n, p.value); }
    var parent := Path(n)[n := None];
    WalkFinds(parent, p, n, MAX_CHANNEL_DEPTH + 1);
    forall k: nat ensures Up(parent, p, k) != Some(n) { NotOnOldWalks(Path(n), n, p, k); }
  }

  lemma PathGrows(n: nat)
    ensures n == 0 ==> Path(n)[n := None] == Path(1)
    ensures n > 0 ==> Path(n)[n := None][n := Some(n - 1)] == Path(n + 1)
  {
  }

  lemma GrowParents(g: Graph<nat, nat>, n: nat)
    requires IsPath(g, n)
    ensures Step(g, Next(n)).parent == Path(n + 1)
  {
    var m := Next(n).state;
    assert n !in g.channels;
    ParentOnlyMoves(g, m, n);
    PathGrows(n);
    if n > 0 {
      NotBelow(n, Some(n - 1));
      MoveToParent(Create(g, n, n), n, n, n - 1);
    }
    hide OnChannelState, MoveTo, IsDescendant, Path, Same;
  }

  lemma GrowStep(g: Graph<nat, nat>, n: nat)
    requires IsPath(g, n)
    ensures IsPath(Step(g, Next(n)), n + 1) && Fresh(g, Next(n))
  {
    GrowParents(g, n);
    MapsOnlyGrow(g, Next(n).state, n);
    hide OnChannelState, Path;
  }

  lemma MapsOnlyGrow(g: Graph<nat, nat>, m: ChannelState, spare: nat)
    requires m.id.Some?
    ensures var (_, g1) := Subject(g, m.id.value, spare); var h := OnChannelState(g, m, spare).0;
      h.id == g1.id && h.channels == g1.channels
  {
    hide Subject, Relink, Rename, IsDescendant;
  }

  lemma AllocatedMore<C, U>(ms: seq<Message<C, U>>, m: Message<C, U>)
    requires Allocated(ms) && Fresh(After(ms), m)
    ensures Allocated(ms + [m])
  {
    forall k | 0 <= k < |ms| + 1 ensures FreshAt(ms + [m], k) {
      assert (ms + [m])[..k] == ms[..k];
      if k < |ms| { assert FreshAt(ms, k); } else { assert ms[..k] == ms; }
    }
  }

  lemma AfterMore<C, U>(ms: seq<Message<C, U>>, m: Message<C, U>)
    ensures After(ms + [m]) == Step(After(ms), m)
  {
    assert (ms + [m])[..|ms|] == ms;
    hide Step;
  }

  lemma LongRunZero()
    ensures IsPath(After(LongRun(0)), 0) && Allocated(LongRun(0))
  {
  }

  lemma {:induction false} LongRunIsPath(n: nat)
    ensures IsPath(After(LongRun(n)), n) && Allocated(LongRun(n))
  {
    hide IsPath, Step, Next, Allocated, After;
    if n == 0 {
      LongRunZero();
    } else {
      var ms, m := LongRun(n - 1), Next(n - 1);
      LongRunIsPath(n - 1);
      GrowStep(After(ms), n - 1);
      AllocatedMore(ms, m);
      AfterMore(ms, m);
    }
  }

  lemma LongRunParents(n: nat)
    ensures After(LongRun(n)).parent == Path(n)
  {
    LongRunIsPath(n);
    hide Allocated, After, LongRun, Path, Same;
  }

  lemma TooDeepInPath(g: Graph<nat, nat>, n: nat)
    requires n > MAX_CHANNEL_DEPTH && IsPath(g, n + 1)
    ensures TooDeep(g, Under(0, Some(n), n + 1)) && Fresh(g, Under(0, Some(n), n + 1))
  {
    UpPath(n + 1, n, n);
    assert FarAbove(g.parent, Some(n), 0);
    hide Path;
  }

  lemma TooDeepMakesCycle<C, U>(ms: seq<Message<C, U>>, m: Message<C, U>)
    requires Allocated(ms) && Fresh(After(ms), m) && Acyclic(After(ms).parent) && TooDeep(After(ms), m)
    ensures Allocated(ms + [m]) && !Acyclic(After(ms + [m]).parent)
  {
    AlwaysInv(ms);
    AllocatedMore(ms, m);
    AfterMore(ms, m);
    StepForest(After(ms), m);
    hide Inv, Step, Acyclic, Allocated, TooDeep, Fresh, After;
  }

  /** The bound is reached: once a server has built a path of n + 1 channels, n at least 1025, moving its root under
      its leaf makes a cycle past the check. */
  lemma DeepMoveMakesCycle(n: nat)
    requires n > MAX_CHANNEL_DEPTH
    ensures var ms := LongRun(n + 1); var m := Under(0, Some(n), n + 1);
      Allocated(ms + [m]) && TooDeep(After(ms), m) && !Acyclic(After(ms + [m]).parent)
  {
    hide *;
    var ms, m := LongRun(n + 1), Under(0, Some(n), n + 1);
    var g := After(ms);
    assert Allocated(ms) by { LongRunIsPath(n + 1); }
    assert TooDeep(g, m) && Fresh(g, m) by {
      LongRunIsPath(n + 1);
      TooDeepInPath(g, n);
    }
    assert Acyclic(g.parent) by {
      LongRunParents(n + 1);
      PathForest(n + 1);
    }
    TooDeepMakesCycle(ms, m);
  }
}
