/** What the client knows is what the server last said: the state after any run of messages, read off the
    messages themselves, and what each message does to the one entry it names and to no other. */
module ServerLog {
  import opened Options
  import opened ServerGraph
  import opened ServerRun

  // ---------------------------------------------------------------- what the server last said

  /** The name last given to channel `i`, empty if it never had one; None while there is no such channel. */
  function NameSaid<C, U>(ms: seq<Message<C, U>>, i: nat): Option<string>
    decreases |ms|
  {
    if ms == [] then None
    else
      var before := NameSaid(ms[..|ms| - 1], i);
      match ms[|ms| - 1]
      case ChannelMessage(m, _) =>
        if m.id != Some(i) then before
        else if m.name.Some? then m.name
        else if before.Some? then before else Some("")
      case ChannelGone(id) => if id == Some(i) then None else before
      case _ => before
  }

  /** The permission bits last given for channel `i`; None if there were none since the channel was last removed
      or the permissions were last flushed. */
  function BitsSaid<C, U>(ms: seq<Message<C, U>>, i: nat): Option<nat>
    decreases |ms|
  {
    if ms == [] then None
    else
      var rest := ms[..|ms| - 1];
      var before := BitsSaid(rest, i);
      match ms[|ms| - 1]
      case ChannelGone(id) => if id == Some(i) then None else before
      case Permissions(channel, bits, flush) =>
        if channel.Some? && bits.Some? && NameSaid(rest, channel.value).None? then before
        else if channel == Some(i) && bits.Some? then bits
        else if flush then None else before
      case _ => before
  }

  /** Is session `s` connected, going by who came and who was told to have gone? */
  function Connected<C, U>(ms: seq<Message<C, U>>, s: nat): bool
    decreases |ms|
  {
    if ms == [] then false
    else
      var rest := ms[..|ms| - 1];
      var before := Connected(rest, s);
      match ms[|ms| - 1]
      case UserMessage(m, _) => before || m.session == Some(s)
      case UserGone(session, actor) =>
        before && (session != Some(s) || (actor.Some? && !Connected(rest, actor.value)))
      case _ => before
  }

  /** The client's channel `i` has the name last said, and no other channel is there. */
  ghost predicate NameIs<C, U>(g: Graph<C, U>, i: nat, name: Option<string>) {
    if i in g.channels then g.channels[i] in g.name && name == Some(g.name[g.channels[i]]) else name == None
  }

  // ---------------------------------------------------------------- ChannelState

  /** A ChannelState gives the channel it names the name it carries and its parent, unless the channel is among
      the first 1025 objects from that parent up; every other channel keeps its own. */
  lemma ChannelStateStores<C, U>(g: Graph<C, U>, m: ChannelState, spare: C)
    requires Inv(g) && spare !in g.id && m.id.Some?
    ensures var (h, i) := (OnChannelState(g, m, spare).0, m.id.value);
            var (c, g1) := Subject(g, i, spare);
            && h.channels == g.channels[i := c] && c in h.name && c in h.parent && c in g1.parent && c in g1.name
            && h.name[c] == (if m.name.Some? then m.name.value else g1.name[c])
            && h.parent[c] == (if m.parent.None? || Within(g1.parent, Lookup(h.channels, m.parent.value), c, 1025)
                               then g1.parent[c] else Lookup(h.channels, m.parent.value))
            && (forall d | d in g.name && d != c :: d in h.name && h.name[d] == g.name[d])
            && (forall d | d in g.parent && d != c :: d in h.parent && h.parent[d] == g.parent[d])
  {
    hide Filed, TreeOk, LinksOk, MembersOk, OnChannelState, MoveTo, Within, IsDescendant;
    var (h, i) := (OnChannelState(g, m, spare).0, m.id.value);
    var (c, g1) := Subject(g, i, spare);
    SubjectKeeps(g, i, spare);
    ParentOnlyMoves(g, m, spare);
    if m.parent.Some? {
      MoveToParent(g1, c, i, m.parent.value);
      WalkFinds(g1.parent, Lookup(g1.channels, m.parent.value), c, MAX_CHANNEL_DEPTH + 1);
    } else {
      MoveToParent(g1, c, i, 0);
    }
    NamesStored(g, m, spare);
  }

  lemma SubjectNames<C, U>(g: Graph<C, U>, i: nat, spare: C)
    requires Whole(g) && Filed(g.id, g.channels) && spare !in g.id
    ensures var (c, h) := Subject(g, i, spare);
            && h.channels == g.channels[i := c] && h.users == g.users && h.permissions == g.permissions
            && c in h.name && (i !in g.channels ==> h.name[c] == "")
            && (forall d | d in g.name && d != c :: d in h.name && h.name[d] == g.name[d])
            && (i in g.channels ==> h == g)
  {
    if i in g.channels {
      assert g.channels[i] in g.id && SameKeys(g.name, g.id);
      assert g.channels[i := g.channels[i]] == g.channels;
    }
  }

  lemma MoveFrame<C, U>(g: Graph<C, U>, c: C, i: nat, parent: Option<nat>)
    ensures var h := MoveTo(g, c, i, parent); h == g.(parent := h.parent, children := h.children)
  {
    hide IsDescendant, AddChild, DropChild;
  }

  lemma NamesStored<C, U>(g: Graph<C, U>, m: ChannelState, spare: C)
    requires Whole(g) && Filed(g.id, g.channels) && spare !in g.id && m.id.Some?
    ensures var (h, i) := (OnChannelState(g, m, spare).0, m.id.value);
            var (c, g1) := Subject(g, i, spare);
            && h.channels == g.channels[i := c] && c in h.name && c in g1.name
            && h.name[c] == (if m.name.Some? then m.name.value else g1.name[c])
            && (i !in g.channels ==> g1.name[c] == "") && (i in g.channels ==> g1 == g)
            && (forall d | d in g.name && d != c :: d in h.name && h.name[d] == g.name[d])
            && h.users == g.users && h.permissions == g.permissions
  {
    hide Relink, MoveTo, Subject, Whole, Filed;
    var i := m.id.value;
    SubjectNames(g, i, spare);
    var (c, g1) := Subject(g, i, spare);
    MoveFrame(g1, c, i, m.parent);
  }

  // ---------------------------------------------------------------- ChannelRemove

  /** A ChannelRemove that succeeds takes that channel out of the client's maps, of its parent's children and
      of the links of every channel left; no other channel loses anything. */
  lemma ChannelRemoveTakes<C, U>(g: Graph<C, U>, i: nat)
    requires Inv(g) && i in g.channels
    ensures var (h, out) := OnChannelRemove(g, Some(i));
            && out.Done? && h.channels == g.channels - {i} && h.permissions == g.permissions - {i}
            && (forall p, j, d :: Has(h.children, p, j, d) <==> Has(g.children, p, j, d) && j != i)
            && (forall l, j, d | Live(h.id, h.channels, l) :: Has(h.links, l, j, d) <==> Has(g.links, l, j, d) && j != i)
            && h == g.(channels := h.channels, permissions := h.permissions, children := h.children, links := h.links)
  {
    Known(g.id, g.channels, i);
    var c := g.channels[i];
    var h := OnChannelRemove(g, Some(i)).0;
    forall p, j, d
      ensures Has(h.children, p, j, d) <==> Has(g.children, p, j, d) && j != i
    {
      ChildTaken(g.id, g.channels, g.parent, g.children, c, p, j, d);
    }
    forall l, j, d | Live(h.id, h.channels, l)
      ensures Has(h.links, l, j, d) <==> Has(g.links, l, j, d) && j != i
    {
      LinkTaken(g.id, g.channels, g.links, c, l, j, d);
    }
    hide Filed, TreeOk, LinksOk, MembersOk, DropChild, DropAt, ParentOf, LinkedTo, Has;
  }

  lemma ChildTaken<C>(id: map<C, nat>, channels: map<nat, C>, parent: map<C, Option<C>>, children: map<C, map<nat, C>>,
                      c: C, p: C, j: nat, d: C)
    requires TreeOk(id, channels, parent, children) && Live(id, channels, c)
    ensures Has(DropChild(children, ParentOf(parent, Some(c)), id[c]), p, j, d) <==> Has(children, p, j, d) && j != id[c]
  {
    if Has(children, p, j, d) {
      assert ChildOf(id, channels, parent, p, j, children[p][j]);
    }
  }

  // What links to a channel is linked by it.
  lemma LinkedBack<C>(id: map<C, nat>, channels: map<nat, C>, links: map<C, map<nat, C>>, c: C, l: C)
    requires LinksOk(id, channels, links) && SameKeys(links, id) && Live(id, channels, c) && Live(id, channels, l)
    ensures id[c] in links[l] ==> l in LinkedTo(links, c)
  {
    if id[c] in links[l] {
      assert LinkBetween(id, channels, links, l, id[c], links[l][id[c]]);
      assert links[l][id[c]] == c && Has(links, c, id[l], l);
    }
  }

  lemma DropAtHas<C>(links: map<C, map<nat, C>>, at: set<C>, i: nat, l: C, j: nat, d: C)
    requires l in links && (i in links[l] ==> l in at)
    ensures Has(DropAt(links, at, i), l, j, d) <==> Has(links, l, j, d) && j != i
  {
  }

  lemma LinkTaken<C>(id: map<C, nat>, channels: map<nat, C>, links: map<C, map<nat, C>>, c: C, l: C, j: nat, d: C)
    requires LinksOk(id, channels, links) && SameKeys(links, id) && Live(id, channels, c)
    requires Live(id, channels - {id[c]}, l)
    ensures Has(DropAt(links, LinkedTo(links, c), id[c]), l, j, d) <==> Has(links, l, j, d) && j != id[c]
  {
    assert l in links && Live(id, channels, l);
    hide LinksOk, LinkedTo, DropAt, Has;
    LinkedBack(id, channels, links, c, l);
    DropAtHas(links, LinkedTo(links, c), id[c], l, j, d);
  }

  // ---------------------------------------------------------------- users

  lemma PersonUsers<C, U>(g: Graph<C, U>, s: nat, spare: U)
    ensures var h := Person(g, s, spare).1;
            h.users.Keys == g.users.Keys + {s} && h.channels == g.channels && h.permissions == g.permissions && h.name == g.name
  {
    hide Put;
    if s in g.users {
      assert g.users.Keys + {s} == g.users.Keys;
    }
  }

  lemma MoveUserFrame<C, U>(g: Graph<C, U>, u: U, s: nat, channel: Option<nat>)
    ensures var (h, out) := MoveUser(g, u, s, channel);
            h == g.(home := h.home, members := h.members) && (out.Done? <==> (channel.Some? ==> channel.value in g.channels))
  {
    hide Leave, Put;
    LeaveFrame(g, u, s);
  }

  /** When a UserState is accepted: it names a session that is known or can join the root, an actor that is known
      once that session is, and a channel that is known. */
  lemma UserStateAccepted<C, U>(g: Graph<C, U>, m: UserState, spare: U)
    ensures OnUserState(g, m, spare).1.Done? <==>
            && m.session.Some? && (m.session.value in g.users || 0 in g.channels)
            && (m.actor.Some? ==> m.actor == m.session || m.actor.value in g.users)
            && (m.channel.Some? ==> m.channel.value in g.channels)
  {
    hide Person, MoveUser;
    if m.session.Some? {
      PersonUsers(g, m.session.value, spare);
      var (u, g1) := Person(g, m.session.value, spare);
      MoveUserFrame(g1, u, m.session.value, m.channel);
      assert forall a :: a in g1.users <==> a in g1.users.Keys;
    }
  }

  /** A UserState makes its session known, even if it is rejected later, and forgets or adds no other. */
  lemma UsersAfterState<C, U>(g: Graph<C, U>, m: UserState, spare: U, s: nat)
    ensures s in OnUserState(g, m, spare).0.users <==> s in g.users || m.session == Some(s)
    ensures OnUserState(g, m, spare).0.channels == g.channels && OnUserState(g, m, spare).0.permissions == g.permissions
    ensures OnUserState(g, m, spare).0.name == g.name
  {
    hide Person, MoveUser;
    if m.session.Some? {
      PersonUsers(g, m.session.value, spare);
      var (u, g1) := Person(g, m.session.value, spare);
      MoveUserFrame(g1, u, m.session.value, m.channel);
      assert s in g1.users <==> s in g1.users.Keys;
    }
  }

  /** A UserRemove moves nobody else. */
  lemma UserRemoveOthers<C, U>(g: Graph<C, U>, session: Option<nat>, actor: Option<nat>, c: C, t: nat, u: U)
    requires session != Some(t)
    ensures var h := OnUserRemove(g, session, actor).0;
            (Has(h.members, c, t, u) <==> Has(g.members, c, t, u)) && (t in h.users <==> t in g.users)
  {
  }

  lemma UsersAfterRemove<C, U>(g: Graph<C, U>, session: Option<nat>, actor: Option<nat>, s: nat)
    ensures var h := OnUserRemove(g, session, actor).0;
            && (s in h.users <==> s in g.users && (session != Some(s) || (actor.Some? && actor.value !in g.users)))
            && h.channels == g.channels && h.permissions == g.permissions && h.name == g.name
  {
    hide Leave, Inv;
    if session.Some? && session.value in g.users && (actor.Some? ==> actor.value in g.users) {
      var l := Leave(g, g.users[session.value], session.value);
      LeaveFrame(g, g.users[session.value], session.value);
      assert l.users == g.users && OnUserRemove(g, session, actor).0 == l.(users := g.users - {session.value});
    }
  }

  // ---------------------------------------------------------------- permissions

  /** A PermissionQuery that names a channel is accepted exactly when it is known; its bits are then stored there,
      and the other entries stay, or are forgotten if it says so. A rejected one changes nothing. */
  lemma PermissionStored<C, U>(g: Graph<C, U>, channel: Option<nat>, bits: Option<nat>, flush: bool, j: nat)
    ensures var (h, out) := OnPermissionQuery(g, channel, bits, flush);
            var named := channel.Some? && bits.Some?;
            && (out.Done? <==> (named ==> channel.value in g.channels))
            && (!out.Done? ==> h == g)
            && h == g.(permissions := h.permissions)
            && (out.Done? ==>
                  Lookup(h.permissions, j)
                  == (if named && j == channel.value then bits else if flush then None else Lookup(g.permissions, j)))
  {
  }

  // ---------------------------------------------------------------- whole runs

  lemma LastStep<C, U>(ms: seq<Message<C, U>>)
    requires Allocated(ms) && ms != []
    ensures var g := After(ms[..|ms| - 1]);
            && Inv(g) && Fresh(g, ms[|ms| - 1]) && After(ms) == Step(g, ms[|ms| - 1]) && Allocated(ms[..|ms| - 1])
  {
    hide Inv, Step, Fresh;
    var n := |ms| - 1;
    Prefixes(ms, n);
    AlwaysInv(ms[..n]);
    assert FreshAt(ms, n);
  }

  // A message that is not about channels says nothing about their names.
  lemma QuietStep<C, U>(g: Graph<C, U>, m: Message<C, U>)
    requires !m.ChannelMessage? && !m.ChannelGone?
    ensures Step(g, m).channels == g.channels && Step(g, m).name == g.name
  {
    hide OnUserState, OnUserRemove, OnPermissionQuery, Lookup, OnChannelState, OnChannelRemove;
    match m {
      case UserMessage(state, spare) => UsersAfterState(g, state, spare, 0);
      case UserGone(session, actor) => UsersAfterRemove(g, session, actor, 0);
      case Permissions(channel, bits, flush) => PermissionStored(g, channel, bits, flush, 0);
    }
  }

  lemma NameChanged<C, U>(g: Graph<C, U>, m: ChannelState, spare: C, i: nat, before: Option<string>)
    requires Inv(g) && spare !in g.id && NameIs(g, i, before)
    ensures NameIs(OnChannelState(g, m, spare).0, i,
      if m.id != Some(i) then before else if m.name.Some? then m.name else if before.Some? then before else Some(""))
  {
    hide OnChannelState, Whole, TreeOk, LinksOk, MembersOk, Create;
    if m.id.Some? {
      NamesStored(g, m, spare);
      if i in g.channels && m.id.value in g.channels && m.id.value != i {
        assert g.channels[i] != g.channels[m.id.value];
      }
    } else {
      ParentOnlyMoves(g, m, spare);
    }
  }

  lemma NameGone<C, U>(g: Graph<C, U>, id: Option<nat>, i: nat, before: Option<string>)
    requires NameIs(g, i, before)
    ensures NameIs(OnChannelRemove(g, id).0, i, if id == Some(i) then None else before)
  {
    hide DropAt, DropChild;
  }

  lemma NameSame<C, U>(g: Graph<C, U>, h: Graph<C, U>, i: nat, name: Option<string>)
    requires h.channels == g.channels && h.name == g.name
    ensures NameIs(h, i, name) <==> NameIs(g, i, name)
  {
  }

  lemma NameStep<C, U>(g: Graph<C, U>, m: Message<C, U>, i: nat, before: Option<string>)
    requires Inv(g) && Fresh(g, m) && NameIs(g, i, before)
    ensures NameIs(Step(g, m), i,
      match m
      case ChannelMessage(state, _) =>
        if state.id != Some(i) then before
        else if state.name.Some? then state.name
        else if before.Some? then before else Some("")
      case ChannelGone(id) => if id == Some(i) then None else before
      case _ => before)
  {
    hide Inv, OnChannelState, OnChannelRemove, OnUserState, OnUserRemove, OnPermissionQuery, NameIs;
    match m {
      case ChannelMessage(state, spare) => NameChanged(g, state, spare, i, before);
      case ChannelGone(id) => NameGone(g, id, i, before);
      case _ =>
        QuietStep(g, m);
        NameSame(g, Step(g, m), i, before);
    }
  }

  /** After any run the client knows exactly the channels announced and not removed since, each under the name
      the server gave it last. */
  lemma {:induction false} NamesAreLastSaid<C, U>(ms: seq<Message<C, U>>, i: nat)
    requires Allocated(ms)
    ensures i in After(ms).channels <==> NameSaid(ms, i).Some?
    ensures NameIs(After(ms), i, NameSaid(ms, i))
    decreases |ms|
  {
    hide Inv, Fresh, Step, Allocated;
    if ms != [] {
      var rest := ms[..|ms| - 1];
      LastStep(ms);
      NamesAreLastSaid(rest, i);
      NameStep(After(rest), ms[|ms| - 1], i, NameSaid(rest, i));
    }
  }

  /** After any run the permission bits kept for a channel are those the server sent last. */
  lemma {:induction false} BitsAreLastSaid<C, U>(ms: seq<Message<C, U>>, i: nat)
    requires Allocated(ms)
    ensures Lookup(After(ms).permissions, i) == BitsSaid(ms, i)
    decreases |ms|
  {
    hide Inv, Fresh, Step, Allocated, NameIs, NameSaid;
    if ms != [] {
      var rest, m := ms[..|ms| - 1], ms[|ms| - 1];
      LastStep(ms);
      BitsAreLastSaid(rest, i);
      if m.Permissions? && m.channel.Some? { NamesAreLastSaid(rest, m.channel.value); }
      BitsStep(After(rest), m, i);
    }
  }

  lemma BitsStep<C, U>(g: Graph<C, U>, m: Message<C, U>, i: nat)
    requires Inv(g) && Fresh(g, m)
    ensures Lookup(Step(g, m).permissions, i) ==
      match m
      case ChannelGone(id) => if id == Some(i) then None else Lookup(g.permissions, i)
      case Permissions(channel, bits, flush) =>
        if channel.Some? && bits.Some? && channel.value !in g.channels then Lookup(g.permissions, i)
        else if channel == Some(i) && bits.Some? then bits
        else if flush then None else Lookup(g.permissions, i)
      case _ => Lookup(g.permissions, i)
  {
    hide TreeOk, LinksOk, MembersOk, OnChannelState, OnUserState, OnUserRemove;
    match m {
      case ChannelMessage(state, spare) =>
        if state.id.Some? {
          NamesStored(g, state, spare);
        } else {
          ParentOnlyMoves(g, state, spare);
        }
      case UserMessage(state, spare) => UsersAfterState(g, state, spare, 0);
      case UserGone(session, actor) => UsersAfterRemove(g, session, actor, 0);
      case ChannelGone(id) =>
      case Permissions(channel, bits, flush) => PermissionStored(g, channel, bits, flush, i);
    }
  }

  /** After any run the client knows exactly the sessions that came and were not taken away since. */
  lemma {:induction false} UsersAreConnected<C, U>(ms: seq<Message<C, U>>, s: nat)
    requires Allocated(ms)
    ensures s in After(ms).users <==> Connected(ms, s)
    decreases |ms|
  {
    hide Inv, Fresh, Step, Allocated;
    if ms != [] {
      var rest, m := ms[..|ms| - 1], ms[|ms| - 1];
      LastStep(ms);
      UsersAreConnected(rest, s);
      if m.UserGone? && m.actor.Some? { UsersAreConnected(rest, m.actor.value); }
      UsersStep(After(rest), m, s);
    }
  }

  lemma UsersStep<C, U>(g: Graph<C, U>, m: Message<C, U>, s: nat)
    requires Inv(g) && Fresh(g, m)
    ensures s in Step(g, m).users <==>
      match m
      case UserMessage(state, _) => s in g.users || state.session == Some(s)
      case UserGone(session, actor) =>
        s in g.users && (session != Some(s) || (actor.Some? && actor.value !in g.users))
      case _ => s in g.users
  {
    hide TreeOk, LinksOk, MembersOk, OnChannelState, OnUserState, OnUserRemove;
    match m {
      case ChannelMessage(state, spare) =>
        if state.id.Some? {
          NamesStored(g, state, spare);
        } else {
          ParentOnlyMoves(g, state, spare);
        }
      case UserMessage(state, spare) => UsersAfterState(g, state, spare, s);
      case UserGone(session, actor) => UsersAfterRemove(g, session, actor, s);
      case ChannelGone(id) =>
      case Permissions(_, _, _) =>
    }
  }
}
