/** The server's channels and users as the client sees them: what each protocol message does to the object graph,
    and what every sequence of messages keeps. `C` and `U` are channel and user objects; removed objects stay in
    the graph, because users and other channels may still point to them. */
module ServerGraph {
  import opened Options

  /** The fields of every object, by object, and the three maps of the client. */
  datatype Graph<!C(==), !U(==)> = Graph(
    id: map<C, nat>, name: map<C, string>, parent: map<C, Option<C>>,
    children: map<C, map<nat, C>>, links: map<C, map<nat, C>>, members: map<C, map<nat, U>>,
    session: map<U, nat>, home: map<U, Option<C>>,
    channels: map<nat, C>, users: map<nat, U>, permissions: map<nat, nat>)

  const MAX_CHANNEL_DEPTH := 1024

  // ---------------------------------------------------------------- maps of maps

  ghost predicate Has<O, V>(m: map<O, map<nat, V>>, o: O, k: nat, v: V) {
    o in m && k in m[o] && m[o][k] == v
  }

  function Put<O(==), V>(m: map<O, map<nat, V>>, o: O, k: nat, v: V): map<O, map<nat, V>> {
    if o in m then
      var inner: map<nat, V> := m[o][k := v];
      m[o := inner]
    else m
  }

  function Drop<O(==), V>(m: map<O, map<nat, V>>, o: O, k: nat): map<O, map<nat, V>> {
    if o in m then m[o := m[o] - {k}] else m
  }

  function Lookup<V>(m: map<nat, V>, k: nat): Option<V> {
    if k in m then Some(m[k]) else None
  }

  // ---------------------------------------------------------------- what holds in every reachable state

  ghost predicate SameKeys<O, V, W>(m: map<O, V>, n: map<O, W>) {
    m.Keys == n.Keys
  }

  /** Every object has all its fields. */
  ghost predicate Whole<C, U>(g: Graph<C, U>) {
    && SameKeys(g.name, g.id) && SameKeys(g.parent, g.id) && SameKeys(g.children, g.id)
    && SameKeys(g.links, g.id) && SameKeys(g.members, g.id) && SameKeys(g.home, g.session)
  }

  /** A map of the client files objects under their own key. */
  ghost predicate Filed<O>(key: map<O, nat>, book: map<nat, O>) {
    forall i | i in book :: book[i] in key && key[book[i]] == i
  }

  /** Still known to the client. */
  ghost predicate Live<C>(id: map<C, nat>, channels: map<nat, C>, c: C) {
    c in id && id[c] in channels && channels[id[c]] == c
  }

  ghost predicate ChildOf<C>(id: map<C, nat>, channels: map<nat, C>, parent: map<C, Option<C>>, p: C, i: nat, c: C) {
    Live(id, channels, c) && id[c] == i && c in parent && parent[c] == Some(p)
  }

  /** The parent of `c`, if any, lists it. */
  ghost predicate Listed<C>(id: map<C, nat>, parent: map<C, Option<C>>, children: map<C, map<nat, C>>, c: C) {
    c in id && c in parent && (parent[c].Some? ==> Has(children, parent[c].value, id[c], c))
  }

  /** Parent and Children agree both ways; a removed channel may keep live children. */
  ghost predicate TreeOk<C>(id: map<C, nat>, channels: map<nat, C>, parent: map<C, Option<C>>, children: map<C, map<nat, C>>) {
    && (forall p | p in children :: forall i | i in children[p] :: ChildOf(id, channels, parent, p, i, children[p][i]))
    && (forall c | c in id && Live(id, channels, c) :: Listed(id, parent, children, c))
    && (forall c | c in parent && parent[c].Some? :: parent[c].value in id)
  }

  ghost predicate LinkBetween<C>(id: map<C, nat>, channels: map<nat, C>, links: map<C, map<nat, C>>, c: C, i: nat, l: C) {
    Live(id, channels, l) && id[l] == i && c in id && Has(links, l, id[c], c)
  }

  /** Links of a live channel are symmetric and lead to live channels. */
  ghost predicate LinksOk<C>(id: map<C, nat>, channels: map<nat, C>, links: map<C, map<nat, C>>) {
    forall c | c in links && Live(id, channels, c) ::
      forall i | i in links[c] :: LinkBetween(id, channels, links, c, i, links[c][i])
  }

  ghost predicate MemberOf<C, U>(session: map<U, nat>, home: map<U, Option<C>>, users: map<nat, U>, c: C, s: nat, u: U) {
    && u in session && session[u] == s && u in home && home[u] == Some(c)
    && s in users && users[s] == u
  }

  /** A user listed in a channel (live or removed) has that channel as its own and is still connected. */
  ghost predicate MembersOk<C, U>(session: map<U, nat>, home: map<U, Option<C>>, users: map<nat, U>, members: map<C, map<nat, U>>) {
    && (forall c | c in members :: forall s | s in members[c] :: MemberOf(session, home, users, c, s, members[c][s]))
    && (forall u | u in home && home[u].Some? :: home[u].value in members)
  }

  ghost predicate Inv<C, U>(g: Graph<C, U>) {
    && Whole(g) && Filed(g.id, g.channels) && Filed(g.session, g.users)
    && TreeOk(g.id, g.channels, g.parent, g.children)
    && LinksOk(g.id, g.channels, g.links)
    && MembersOk(g.session, g.home, g.users, g.members)
    && g.permissions.Keys <= g.channels.Keys
  }

  // ---------------------------------------------------------------- ancestors

  function ParentOf<C(==)>(parent: map<C, Option<C>>, c: Option<C>): Option<C> {
    if c.Some? && c.value in parent then parent[c.value] else None
  }

  /** The n-th object up the Parent pointers. */
  ghost function Up<C>(parent: map<C, Option<C>>, c: Option<C>, n: nat): Option<C>
    decreases n
  {
    if n == 0 then c else Up(parent, ParentOf(parent, c), n - 1)
  }

  ghost predicate Rooted<C>(parent: map<C, Option<C>>, c: Option<C>) {
    exists n: nat :: Up(parent, c, n) == None
  }

  /** Every walk up the Parent pointers ends. */
  ghost predicate Acyclic<C>(parent: map<C, Option<C>>) {
    forall c | c in parent :: Rooted(parent, Some(c))
  }

  /** The bounded walk of isChannelDescendant: `steps` more objects may be looked at. */
  function IsDescendant<C(==)>(parent: map<C, Option<C>>, candidate: Option<C>, c: C, steps: nat): bool
    decreases steps
  {
    if candidate.None? || steps == 0 then false
    else candidate.value == c || IsDescendant(parent, ParentOf(parent, candidate), c, steps - 1)
  }

  // ---------------------------------------------------------------- messages

  datatype ChannelState = ChannelState(
    id: Option<nat>, parent: Option<nat>, name: Option<string>,
    links: seq<nat>, linksAdd: seq<nat>, linksRemove: seq<nat>)

  datatype UserState = UserState(session: Option<nat>, actor: Option<nat>, channel: Option<nat>)

  datatype Outcome = Done | Incomplete | Invalid

  function Create<C(==), U(==)>(g: Graph<C, U>, id: nat, c: C): Graph<C, U> {
    g.(id := g.id[c := id], name := g.name[c := ""], parent := g.parent[c := None], children := g.children[c := map[]],
       links := g.links[c := map[]], members := g.members[c := map[]], channels := g.channels[id := c])
  }

  function DropChild<C(==)>(children: map<C, map<nat, C>>, p: Option<C>, i: nat): map<C, map<nat, C>> {
    if p.None? then children else Drop(children, p.value, i)
  }

  function AddChild<C(==)>(children: map<C, map<nat, C>>, p: Option<C>, i: nat, c: C): map<C, map<nat, C>> {
    if p.None? then children else Put(children, p.value, i, c)
  }

  function Reparent<C(==), U(==)>(g: Graph<C, U>, c: C, i: nat, p: Option<C>): Graph<C, U> {
    g.(parent := g.parent[c := p],
       children := AddChild(DropChild(g.children, ParentOf(g.parent, Some(c)), i), p, i, c))
  }

  /** The parent field of a ChannelState: ignored if the walk finds the channel above its new parent. */
  function MoveTo<C(==), U(==)>(g: Graph<C, U>, c: C, i: nat, parent: Option<nat>): Graph<C, U> {
    if parent.None? then g
    else
      var p := Lookup(g.channels, parent.value);
      if IsDescendant(g.parent, p, c, MAX_CHANNEL_DEPTH + 1) then g else Reparent(g, c, i, p)
  }

  function Rename<C(==)>(names: map<C, string>, c: C, name: Option<string>): map<C, string> {
    if name.None? then names else names[c := name.value]
  }

  /** Deletes entry `i` at every channel of a set. */
  function DropAt<C(==)>(links: map<C, map<nat, C>>, at: set<C>, i: nat): map<C, map<nat, C>> {
    map c | c in links :: if c in at then links[c] - {i} else links[c]
  }

  function LinkedTo<C(==)>(links: map<C, map<nat, C>>, c: C): set<C> {
    if c in links then links[c].Values else {}
  }

  function ClearLinks<C(==)>(links: map<C, map<nat, C>>, c: C, i: nat): map<C, map<nat, C>> {
    DropAt(links, LinkedTo(links, c), i)[c := map[]]
  }

  function LinkTo<C(==)>(channels: map<nat, C>, links: map<C, map<nat, C>>, c: C, i: nat, j: nat): map<C, map<nat, C>> {
    if j in channels then Put(Put(links, c, j, channels[j]), channels[j], i, c) else links
  }

  function UnlinkFrom<C(==)>(channels: map<nat, C>, links: map<C, map<nat, C>>, c: C, i: nat, j: nat): map<C, map<nat, C>> {
    if j in channels then Drop(Drop(links, c, j), channels[j], i) else links
  }

  function LinkAll<C(==)>(channels: map<nat, C>, links: map<C, map<nat, C>>, c: C, i: nat, ids: seq<nat>): map<C, map<nat, C>>
    decreases |ids|
  {
    if ids == [] then links
    else LinkTo(channels, LinkAll(channels, links, c, i, ids[..|ids| - 1]), c, i, ids[|ids| - 1])
  }

  function UnlinkAll<C(==)>(channels: map<nat, C>, links: map<C, map<nat, C>>, c: C, i: nat, ids: seq<nat>): map<C, map<nat, C>>
    decreases |ids|
  {
    if ids == [] then links
    else UnlinkFrom(channels, UnlinkAll(channels, links, c, i, ids[..|ids| - 1]), c, i, ids[|ids| - 1])
  }

  /** The three link lists of a ChannelState; only a nonempty `links` replaces what was there. */
  function Relink<C(==)>(channels: map<nat, C>, links: map<C, map<nat, C>>, c: C, m: ChannelState, i: nat): map<C, map<nat, C>> {
    var l1 := if m.links == [] then links else LinkAll(channels, ClearLinks(links, c, i), c, i, m.links);
    var l2 := LinkAll(channels, l1, c, i, m.linksAdd);
    UnlinkAll(channels, l2, c, i, m.linksRemove)
  }

  /** The channel named by a ChannelState, created on the object `spare` if it is new. */
  function Subject<C(==), U(==)>(g: Graph<C, U>, i: nat, spare: C): (C, Graph<C, U>) {
    if i in g.channels then (g.channels[i], g) else (spare, Create(g, i, spare))
  }

  function OnChannelState<C(==), U(==)>(g: Graph<C, U>, m: ChannelState, spare: C): (Graph<C, U>, Outcome) {
    if m.id.None? then (g, Incomplete)
    else
      var i := m.id.value;
      var (c, g1) := Subject(g, i, spare);
      var g2 := MoveTo(g1, c, i, m.parent);
      (g2.(name := Rename(g2.name, c, m.name), links := Relink(g2.channels, g2.links, c, m, i)), Done)
  }

  function OnChannelRemove<C(==), U(==)>(g: Graph<C, U>, id: Option<nat>): (Graph<C, U>, Outcome) {
    if id.None? then (g, Incomplete)
    else if id.value !in g.channels then (g, Invalid)
    else
      var i := id.value;
      var c := g.channels[i];
      (g.(channels := g.channels - {i}, permissions := g.permissions - {i},
          children := DropChild(g.children, ParentOf(g.parent, Some(c)), i),
          links := DropAt(g.links, LinkedTo(g.links, c), i)), Done)
  }

  /** Takes a user out of the Users map of its channel. */
  function Leave<C(==), U(==)>(g: Graph<C, U>, u: U, s: nat): Graph<C, U> {
    if u in g.home && g.home[u].Some? then g.(members := Drop(g.members, g.home[u].value, s)) else g
  }

  function Enter<C(==), U(==)>(g: Graph<C, U>, u: U, s: nat, c: C): Graph<C, U> {
    g.(home := g.home[u := Some(c)], members := Put(g.members, c, s, u))
  }

  /** A new user object, in the root channel if there is one. */
  function Join<C(==), U(==)>(g: Graph<C, U>, s: nat, u: U): Graph<C, U> {
    var root := Lookup(g.channels, 0);
    g.(users := g.users[s := u], session := g.session[u := s], home := g.home[u := root],
       members := if root.None? then g.members else Put(g.members, root.value, s, u))
  }

  /** The user named by a UserState, created on the object `spare` if it is new. */
  function Person<C(==), U(==)>(g: Graph<C, U>, s: nat, spare: U): (U, Graph<C, U>) {
    if s in g.users then (g.users[s], g) else (spare, Join(g, s, spare))
  }

  /** The channel field of a UserState: the user has left its channel before the new one is looked up. */
  function MoveUser<C(==), U(==)>(g: Graph<C, U>, u: U, s: nat, channel: Option<nat>): (Graph<C, U>, Outcome) {
    if channel.None? then (g, Done)
    else
      var g1 := Leave(g, u, s);
      if channel.value !in g.channels then (g1, Invalid)
      else (Enter(g1, u, s, g.channels[channel.value]), Done)
  }

  /** UserState; `spare` is the object allocated for a new session. Error exits keep what was done before them. */
  function OnUserState<C(==), U(==)>(g: Graph<C, U>, m: UserState, spare: U): (Graph<C, U>, Outcome) {
    if m.session.None? then (g, Incomplete)
    else
      var s := m.session.value;
      var (u, g1) := Person(g, s, spare);
      if s !in g.users && 0 !in g.channels then (g1, Invalid)
      else if m.actor.Some? && m.actor.value !in g1.users then (g1, Invalid)
      else MoveUser(g1, u, s, m.channel)
  }

  function OnUserRemove<C(==), U(==)>(g: Graph<C, U>, session: Option<nat>, actor: Option<nat>): (Graph<C, U>, Outcome) {
    if session.None? then (g, Incomplete)
    else if session.value !in g.users then (g, Invalid)
    else if actor.Some? && actor.value !in g.users then (g, Invalid)
    else
      var h := Leave(g, g.users[session.value], session.value);
      (h.(users := h.users - {session.value}), Done)
  }

  function OnPermissionQuery<C(==), U(==)>(g: Graph<C, U>, channel: Option<nat>, permissions: Option<nat>, flush: bool)
    : (Graph<C, U>, Outcome)
  {
    var single := channel.Some? && permissions.Some?;
    if single && channel.value !in g.channels then (g, Invalid)
    else
      var kept := if flush then map[] else g.permissions;
      if single then (g.(permissions := kept[channel.value := permissions.value]), Done) else (g.(permissions := kept), Done)
  }

  /** The channel IDs whose change a PermissionQuery reports. */
  function Reported<C(==), U(==)>(g: Graph<C, U>, channel: Option<nat>, permissions: Option<nat>, flush: bool): set<nat> {
    var single := channel.Some? && permissions.Some?;
    if single && channel.value !in g.channels then {}
    else (if flush then g.permissions.Keys else {}) + (if single then {channel.value} else {})
  }

  // ---------------------------------------------------------------- ChannelState keeps the invariant

  lemma CreateTree<C, U>(g: Graph<C, U>, i: nat, c: C)
    requires TreeOk(g.id, g.channels, g.parent, g.children) && SameKeys(g.children, g.id)
    requires i !in g.channels && c !in g.id
    ensures var h := Create(g, i, c); TreeOk(h.id, h.channels, h.parent, h.children)
  {
    var h := Create(g, i, c);
    forall p, j | p in h.children && j in h.children[p]
      ensures ChildOf(h.id, h.channels, h.parent, p, j, h.children[p][j])
    {
      assert ChildOf(g.id, g.channels, g.parent, p, j, g.children[p][j]);
    }
    forall d | d in h.id && Live(h.id, h.channels, d) ensures Listed(h.id, h.parent, h.children, d) {
      assert d == c || Listed(g.id, g.parent, g.children, d);
    }
  }

  lemma CreateLinks<C, U>(g: Graph<C, U>, i: nat, c: C)
    requires LinksOk(g.id, g.channels, g.links) && SameKeys(g.links, g.id)
    requires i !in g.channels && c !in g.id
    ensures var h := Create(g, i, c); LinksOk(h.id, h.channels, h.links)
  {
    var h := Create(g, i, c);
    forall d, j | d in h.links && Live(h.id, h.channels, d) && j in h.links[d]
      ensures LinkBetween(h.id, h.channels, h.links, d, j, h.links[d][j])
    {
      assert LinkBetween(g.id, g.channels, g.links, d, j, g.links[d][j]);
    }
  }

  lemma CreateMembers<C, U>(g: Graph<C, U>, i: nat, c: C)
    requires MembersOk(g.session, g.home, g.users, g.members)
    ensures var h := Create(g, i, c); MembersOk(h.session, h.home, h.users, h.members)
  {
    var h := Create(g, i, c);
    forall d, s | d in h.members && s in h.members[d] ensures MemberOf(h.session, h.home, h.users, d, s, h.members[d][s]) {
      assert MemberOf(g.session, g.home, g.users, d, s, g.members[d][s]);
    }
  }

  lemma NewKey<O, V, W>(m: map<O, V>, n: map<O, W>, o: O, v: V, w: W)
    requires SameKeys(m, n)
    ensures SameKeys(m[o := v], n[o := w])
  {
  }

  lemma CreateWhole<C, U>(g: Graph<C, U>, i: nat, c: C)
    requires Whole(g)
    ensures Whole(Create(g, i, c))
  {
    NewKey(g.name, g.id, c, "", i);
    NewKey(g.parent, g.id, c, None, i);
    NewKey(g.children, g.id, c, map[], i);
    NewKey(g.links, g.id, c, map[], i);
    NewKey(g.members, g.id, c, map[], i);
    hide SameKeys;
  }

  lemma NewEntry<O>(key: map<O, nat>, book: map<nat, O>, o: O, k: nat)
    requires Filed(key, book) && o !in key
    ensures Filed(key[o := k], book[k := o])
  {
  }

  lemma CreateMaps<C, U>(g: Graph<C, U>, i: nat, c: C)
    requires Filed(g.id, g.channels) && Filed(g.session, g.users) && g.permissions.Keys <= g.channels.Keys
    requires c !in g.id
    ensures var h := Create(g, i, c);
      && Filed(h.id, h.channels) && Filed(h.session, h.users) && h.permissions.Keys <= h.channels.Keys
      && Live(h.id, h.channels, c)
  {
    NewEntry(g.id, g.channels, c, i);
    hide Filed;
  }

  lemma CreateKeeps<C, U>(g: Graph<C, U>, i: nat, c: C)
    requires Inv(g) && i !in g.channels && c !in g.id
    ensures Inv(Create(g, i, c)) && Live(Create(g, i, c).id, Create(g, i, c).channels, c)
  {
    CreateTree(g, i, c);
    CreateLinks(g, i, c);
    CreateMembers(g, i, c);
    CreateWhole(g, i, c);
    CreateMaps(g, i, c);
    hide TreeOk, LinksOk, MembersOk, Whole, Filed, Create, Live;
  }

  lemma ReparentTree<C, U>(g: Graph<C, U>, c: C, i: nat, p: Option<C>)
    requires TreeOk(g.id, g.channels, g.parent, g.children) && SameKeys(g.children, g.id)
    requires Live(g.id, g.channels, c) && g.id[c] == i && (p.Some? ==> p.value in g.id)
    ensures var h := Reparent(g, c, i, p); TreeOk(h.id, h.channels, h.parent, h.children)
  {
    var h := Reparent(g, c, i, p);
    forall q, j | q in h.children && j in h.children[q]
      ensures ChildOf(h.id, h.channels, h.parent, q, j, h.children[q][j])
    {
      if Some(q) == p && j == i {
      } else {
        assert ChildOf(g.id, g.channels, g.parent, q, j, g.children[q][j]);
      }
    }
    forall d | d in h.id && Live(h.id, h.channels, d) ensures Listed(h.id, h.parent, h.children, d) {
      assert Listed(g.id, g.parent, g.children, d);
    }
  }

  lemma MoveWhole<C, U>(g: Graph<C, U>, c: C, i: nat, p: Option<C>)
    requires Whole(g) && c in g.id
    ensures Whole(Reparent(g, c, i, p))
  {
    var h := Reparent(g, c, i, p);
    assert SameKeys(h.children, g.children) && SameKeys(h.parent, g.parent);
  }

  lemma ReparentKeeps<C, U>(g: Graph<C, U>, c: C, i: nat, p: Option<C>)
    requires Inv(g) && Live(g.id, g.channels, c) && g.id[c] == i && (p.Some? ==> p.value in g.id)
    ensures var h := Reparent(g, c, i, p); Inv(h) && h.id == g.id && h.channels == g.channels
  {
    ReparentTree(g, c, i, p);
    MoveWhole(g, c, i, p);
    hide TreeOk, LinksOk, MembersOk, Whole, Filed, Live;
  }

  lemma Known<O>(key: map<O, nat>, book: map<nat, O>, k: nat)
    requires Filed(key, book)
    ensures var p := Lookup(book, k); p.Some? ==> p.value in key && key[p.value] == k && Live(key, book, p.value)
  {
  }

  lemma KnownParent<C, U>(g: Graph<C, U>, k: nat)
    requires Inv(g)
    ensures var p := Lookup(g.channels, k); p.Some? ==> p.value in g.id
  {
  }

  lemma MoveToKeeps<C, U>(g: Graph<C, U>, c: C, i: nat, parent: Option<nat>)
    requires Inv(g) && Live(g.id, g.channels, c) && g.id[c] == i
    ensures var h := MoveTo(g, c, i, parent); Inv(h) && Live(h.id, h.channels, c) && h.id[c] == i
  {
    if parent.Some? {
      hide Inv, IsDescendant, Reparent, Live, Lookup;
      KnownParent(g, parent.value);
      ReparentKeeps(g, c, i, Lookup(g.channels, parent.value));
    }
  }

  /** One link, before and after clearing the links of `c`. */
  lemma ClearOne<C>(id: map<C, nat>, channels: map<nat, C>, links: map<C, map<nat, C>>, c: C, d: C, j: nat)
    requires Live(id, channels, c) && SameKeys(links, id) && Live(id, channels, d)
    requires j in links[d] ==> LinkBetween(id, channels, links, d, j, links[d][j])
    ensures var l := ClearLinks(links, c, id[c]);
      d in l && (j in l[d] ==> LinkBetween(id, channels, l, d, j, l[d][j]))
  {
    var l := ClearLinks(links, c, id[c]);
    if j in l[d] {
      assert d != c && j in links[d];
      var t := links[d][j];
      assert d in links[t].Values;
      assert t != c && id[d] != id[c];
    }
  }

  lemma ClearLinksOk<C>(id: map<C, nat>, channels: map<nat, C>, links: map<C, map<nat, C>>, c: C)
    requires LinksOk(id, channels, links) && Live(id, channels, c) && SameKeys(links, id)
    ensures var l := ClearLinks(links, c, id[c]); LinksOk(id, channels, l) && SameKeys(l, id)
  {
    var l := ClearLinks(links, c, id[c]);
    assert SameKeys(l, links);
    forall d, j | d in l && Live(id, channels, d) && j in l[d] ensures LinkBetween(id, channels, l, d, j, l[d][j]) {
      ClearOne(id, channels, links, c, d, j);
      hide LinkBetween, ClearLinks, Live;
    }
  }

  lemma LinkOne<C>(id: map<C, nat>, channels: map<nat, C>, links: map<C, map<nat, C>>, c: C, i: nat, j: nat, d: C, k: nat)
    requires Live(id, channels, c) && id[c] == i && SameKeys(links, id) && Live(id, channels, d)
    requires k in links[d] ==> LinkBetween(id, channels, links, d, k, links[d][k])
    requires j in channels ==> channels[j] in id && id[channels[j]] == j
    ensures var l := LinkTo(channels, links, c, i, j);
      SameKeys(l, id) && (k in l[d] ==> LinkBetween(id, channels, l, d, k, l[d][k]))
  {
  }

  lemma LinkToOk<C>(id: map<C, nat>, channels: map<nat, C>, links: map<C, map<nat, C>>, c: C, i: nat, j: nat)
    requires LinksOk(id, channels, links) && Live(id, channels, c) && id[c] == i && SameKeys(links, id)
    requires Filed(id, channels)
    ensures var l := LinkTo(channels, links, c, i, j); LinksOk(id, channels, l) && SameKeys(l, id)
  {
    LinkOne(id, channels, links, c, i, j, c, j);
    var l := LinkTo(channels, links, c, i, j);
    forall d, k | d in l && Live(id, channels, d) && k in l[d] ensures LinkBetween(id, channels, l, d, k, l[d][k]) {
      LinkOne(id, channels, links, c, i, j, d, k);
      hide LinkBetween, LinkTo, Live;
    }
  }

  lemma UnlinkOne<C>(id: map<C, nat>, channels: map<nat, C>, links: map<C, map<nat, C>>, c: C, i: nat, j: nat, d: C, k: nat)
    requires Live(id, channels, c) && id[c] == i && SameKeys(links, id) && Live(id, channels, d)
    requires k in links[d] ==> LinkBetween(id, channels, links, d, k, links[d][k])
    requires j in channels ==> channels[j] in id && id[channels[j]] == j
    ensures var l := UnlinkFrom(channels, links, c, i, j);
      SameKeys(l, id) && (k in l[d] ==> LinkBetween(id, channels, l, d, k, l[d][k]))
  {
  }

  lemma UnlinkFromOk<C>(id: map<C, nat>, channels: map<nat, C>, links: map<C, map<nat, C>>, c: C, i: nat, j: nat)
    requires LinksOk(id, channels, links) && Live(id, channels, c) && id[c] == i && SameKeys(links, id)
    requires Filed(id, channels)
    ensures var l := UnlinkFrom(channels, links, c, i, j); LinksOk(id, channels, l) && SameKeys(l, id)
  {
    UnlinkOne(id, channels, links, c, i, j, c, j);
    var l := UnlinkFrom(channels, links, c, i, j);
    forall d, k | d in l && Live(id, channels, d) && k in l[d] ensures LinkBetween(id, channels, l, d, k, l[d][k]) {
      UnlinkOne(id, channels, links, c, i, j, d, k);
      hide LinkBetween, UnlinkFrom, Live;
    }
  }

  lemma {:induction false} LinkAllOk<C>(id: map<C, nat>, channels: map<nat, C>, links: map<C, map<nat, C>>, c: C, i: nat, ids: seq<nat>)
    requires LinksOk(id, channels, links) && Live(id, channels, c) && id[c] == i && SameKeys(links, id) && Filed(id, channels)
    ensures var l := LinkAll(channels, links, c, i, ids); LinksOk(id, channels, l) && SameKeys(l, id)
    decreases |ids|
  {
    if ids != [] {
      var k := |ids| - 1;
      LinkAllOk(id, channels, links, c, i, ids[..k]);
      LinkToOk(id, channels, LinkAll(channels, links, c, i, ids[..k]), c, i, ids[k]);
      hide LinksOk, Filed, SameKeys, LinkTo;
    }
  }

  lemma {:induction false} UnlinkAllOk<C>(id: map<C, nat>, channels: map<nat, C>, links: map<C, map<nat, C>>, c: C, i: nat, ids: seq<nat>)
    requires LinksOk(id, channels, links) && Live(id, channels, c) && id[c] == i && SameKeys(links, id) && Filed(id, channels)
    ensures var l := UnlinkAll(channels, links, c, i, ids); LinksOk(id, channels, l) && SameKeys(l, id)
    decreases |ids|
  {
    if ids != [] {
      var k := |ids| - 1;
      UnlinkAllOk(id, channels, links, c, i, ids[..k]);
      UnlinkFromOk(id, channels, UnlinkAll(channels, links, c, i, ids[..k]), c, i, ids[k]);
      hide LinksOk, Filed, SameKeys, UnlinkFrom;
    }
  }

  lemma RelinkOk<C>(id: map<C, nat>, channels: map<nat, C>, links: map<C, map<nat, C>>, c: C, m: ChannelState, i: nat)
    requires LinksOk(id, channels, links) && Live(id, channels, c) && id[c] == i && SameKeys(links, id) && Filed(id, channels)
    ensures var l := Relink(channels, links, c, m, i); LinksOk(id, channels, l) && SameKeys(l, id)
  {
    ClearLinksOk(id, channels, links, c);
    var l0 := if m.links == [] then links else ClearLinks(links, c, i);
    LinkAllOk(id, channels, l0, c, i, m.links);
    var l1 := if m.links == [] then links else LinkAll(channels, l0, c, i, m.links);
    LinkAllOk(id, channels, l1, c, i, m.linksAdd);
    UnlinkAllOk(id, channels, LinkAll(channels, l1, c, i, m.linksAdd), c, i, m.linksRemove);
    hide LinksOk, Filed, SameKeys, LinkAll, UnlinkAll, ClearLinks, Live;
  }

  // What the link lists of a ChannelState come to, channel by channel.

  lemma {:induction false} LinkAllOf<C>(id: map<C, nat>, channels: map<nat, C>, links: map<C, map<nat, C>>, c: C, i: nat, ids: seq<nat>, d: C, j: nat)
    requires LinksOk(id, channels, links) && Live(id, channels, c) && id[c] == i && SameKeys(links, id) && Filed(id, channels) && d in id
    ensures var l := LinkAll(channels, links, c, i, ids);
      && d in l && c in l
      && (j in l[c] <==> j in links[c] || (j in ids && j in channels))
      && (d != c && j != i ==> (j in l[d] <==> j in links[d]))
    decreases |ids|
  {
    if ids != [] {
      var k := |ids| - 1;
      LinkAllOf(id, channels, links, c, i, ids[..k], d, j);
      LinkAllOk(id, channels, links, c, i, ids[..k]);
      LinkToOf(id, channels, LinkAll(channels, links, c, i, ids[..k]), c, i, ids[k], d, j);
      assert j in ids <==> j in ids[..k] || j == ids[k];
      hide LinksOk, Filed, SameKeys, LinkTo;
    }
  }

  lemma LinkToOf<C>(id: map<C, nat>, channels: map<nat, C>, links: map<C, map<nat, C>>, c: C, i: nat, k: nat, d: C, j: nat)
    requires Live(id, channels, c) && id[c] == i && SameKeys(links, id) && Filed(id, channels) && d in id
    ensures var l := LinkTo(channels, links, c, i, k);
      && d in l && c in l
      && (j in l[c] <==> j in links[c] || (j == k && j in channels))
      && (d != c && j != i ==> (j in l[d] <==> j in links[d]))
  {
  }

  lemma UnlinkFromOf<C>(id: map<C, nat>, channels: map<nat, C>, links: map<C, map<nat, C>>, c: C, i: nat, k: nat, d: C, j: nat)
    requires Live(id, channels, c) && id[c] == i && SameKeys(links, id) && Filed(id, channels) && d in id
    ensures var l := UnlinkFrom(channels, links, c, i, k);
      && d in l && c in l
      && (j in l[c] <==> j in links[c] && !(j == k && j in channels))
      && (d != c && j != i ==> (j in l[d] <==> j in links[d]))
  {
  }

  lemma {:induction false} UnlinkAllOf<C>(id: map<C, nat>, channels: map<nat, C>, links: map<C, map<nat, C>>, c: C, i: nat, ids: seq<nat>, d: C, j: nat)
    requires LinksOk(id, channels, links) && Live(id, channels, c) && id[c] == i && SameKeys(links, id) && Filed(id, channels) && d in id
    ensures var l := UnlinkAll(channels, links, c, i, ids);
      && d in l && c in l
      && (j in l[c] <==> j in links[c] && !(j in ids && j in channels))
      && (d != c && j != i ==> (j in l[d] <==> j in links[d]))
    decreases |ids|
  {
    if ids != [] {
      var k := |ids| - 1;
      UnlinkAllOf(id, channels, links, c, i, ids[..k], d, j);
      UnlinkAllOk(id, channels, links, c, i, ids[..k]);
      UnlinkFromOf(id, channels, UnlinkAll(channels, links, c, i, ids[..k]), c, i, ids[k], d, j);
      assert j in ids <==> j in ids[..k] || j == ids[k];
      hide LinksOk, Filed, SameKeys, UnlinkFrom;
    }
  }

  /** After a ChannelState, channel `c` is linked to exactly the known channels that the message keeps or adds and does
      not remove; links between other channels are as they were. */
  lemma RelinkExactly<C>(id: map<C, nat>, channels: map<nat, C>, links: map<C, map<nat, C>>, c: C, m: ChannelState, d: C, j: nat)
    requires LinksOk(id, channels, links) && Live(id, channels, c) && SameKeys(links, id) && Filed(id, channels)
    requires d in id && j in channels
    ensures var i := id[c]; var l := Relink(channels, links, c, m, i);
      && d in l && c in l
      && (j in l[c] <==> j !in m.linksRemove && (j in m.linksAdd || (if m.links == [] then j in links[c] else j in m.links)))
      && (d != c && j != i ==> (j in l[d] <==> j in links[d]))
  {
    var i := id[c];
    ClearLinksOk(id, channels, links, c);
    ClearLinksOf(id, links, c, d, j);
    var l0 := if m.links == [] then links else ClearLinks(links, c, i);
    LinkAllOk(id, channels, l0, c, i, m.links);
    LinkAllOf(id, channels, l0, c, i, m.links, d, j);
    var l1 := if m.links == [] then links else LinkAll(channels, l0, c, i, m.links);
    LinkAllOk(id, channels, l1, c, i, m.linksAdd);
    LinkAllOf(id, channels, l1, c, i, m.linksAdd, d, j);
    UnlinkAllOf(id, channels, LinkAll(channels, l1, c, i, m.linksAdd), c, i, m.linksRemove, d, j);
    hide LinksOk, Filed, LinkAll, UnlinkAll, ClearLinks;
  }

  lemma ClearLinksOf<C>(id: map<C, nat>, links: map<C, map<nat, C>>, c: C, d: C, j: nat)
    requires SameKeys(links, id) && c in id && d in id
    ensures var l := ClearLinks(links, c, id[c]);
      d in l && c in l && j !in l[c] && (d != c && j != id[c] ==> (j in l[d] <==> j in links[d]))
  {
  }

  lemma RenameKeeps<C, U>(g: Graph<C, U>, c: C, name: Option<string>)
    requires Inv(g) && c in g.id
    ensures Inv(g.(name := Rename(g.name, c, name)))
  {
    hide Filed, TreeOk, LinksOk, MembersOk;
  }

  lemma SubjectKeeps<C, U>(g: Graph<C, U>, i: nat, spare: C)
    requires Inv(g) && spare !in g.id
    ensures var (c, h) := Subject(g, i, spare); Inv(h) && Live(h.id, h.channels, c) && h.id[c] == i
  {
    if i in g.channels {
      Known(g.id, g.channels, i);
    } else {
      CreateKeeps(g, i, spare);
    }
    hide Inv, Live;
  }

  lemma RelinkKeeps<C, U>(g: Graph<C, U>, c: C, i: nat, m: ChannelState)
    requires Inv(g) && Live(g.id, g.channels, c) && g.id[c] == i
    ensures Inv(g.(links := Relink(g.channels, g.links, c, m, i)))
  {
    RelinkOk(g.id, g.channels, g.links, c, m, i);
    hide Filed, TreeOk, LinksOk, MembersOk, Relink, SameKeys, Live;
  }

  lemma ChannelStateKeeps<C, U>(g: Graph<C, U>, m: ChannelState, spare: C)
    requires Inv(g) && spare !in g.id
    ensures Inv(OnChannelState(g, m, spare).0)
  {
    if m.id.Some? {
      var i := m.id.value;
      var (c, g1) := Subject(g, i, spare);
      SubjectKeeps(g, i, spare);
      MoveToKeeps(g1, c, i, m.parent);
      var g2 := MoveTo(g1, c, i, m.parent);
      RenameKeeps(g2, c, m.name);
      RelinkKeeps(g2.(name := Rename(g2.name, c, m.name)), c, i, m);
      hide Inv, MoveTo, Relink, Rename, Subject;
    }
  }

  // ---------------------------------------------------------------- the other messages keep it

  lemma RemoveTree<C>(id: map<C, nat>, channels: map<nat, C>, parent: map<C, Option<C>>, children: map<C, map<nat, C>>, c: C)
    requires TreeOk(id, channels, parent, children) && Live(id, channels, c)
    ensures TreeOk(id, channels - {id[c]}, parent, DropChild(children, ParentOf(parent, Some(c)), id[c]))
  {
    var i := id[c];
    var rest := channels - {i};
    var after := DropChild(children, ParentOf(parent, Some(c)), i);
    forall p, j | p in after && j in after[p] ensures ChildOf(id, rest, parent, p, j, after[p][j]) {
      assert ChildOf(id, channels, parent, p, j, children[p][j]);
    }
    forall d | d in id && Live(id, rest, d) ensures Listed(id, parent, after, d) {
      assert Live(id, channels, d) && Listed(id, parent, children, d);
    }
  }

  /** One link, before and after the removal of `c`. */
  lemma RemoveOne<C>(id: map<C, nat>, channels: map<nat, C>, links: map<C, map<nat, C>>, c: C, d: C, j: nat)
    requires Live(id, channels, c) && SameKeys(links, id) && d in id
    requires j in links[d] && Live(id, channels, d) ==> LinkBetween(id, channels, links, d, j, links[d][j])
    ensures var l := DropAt(links, LinkedTo(links, c), id[c]);
      d in l && (j in l[d] && Live(id, channels - {id[c]}, d) ==> LinkBetween(id, channels - {id[c]}, l, d, j, l[d][j]))
  {
    var l := DropAt(links, LinkedTo(links, c), id[c]);
    if j in l[d] && Live(id, channels - {id[c]}, d) {
      var t := links[d][j];
      assert d in links[t].Values;
      assert t != c;
    }
  }

  lemma RemoveLinks<C>(id: map<C, nat>, channels: map<nat, C>, links: map<C, map<nat, C>>, c: C)
    requires LinksOk(id, channels, links) && Live(id, channels, c) && SameKeys(links, id)
    ensures var l := DropAt(links, LinkedTo(links, c), id[c]); LinksOk(id, channels - {id[c]}, l) && SameKeys(l, id)
  {
    var i := id[c];
    var rest := channels - {i};
    var l := DropAt(links, LinkedTo(links, c), i);
    assert SameKeys(l, links);
    forall d, j | d in l && Live(id, rest, d) && j in l[d] ensures LinkBetween(id, rest, l, d, j, l[d][j]) {
      RemoveOne(id, channels, links, c, d, j);
      assert l[d] == links[d] || l[d] == links[d] - {i};
      hide LinkBetween, DropAt;
    }
  }

  lemma RemoveMaps<C>(id: map<C, nat>, channels: map<nat, C>, permissions: map<nat, nat>, i: nat)
    requires Filed(id, channels) && permissions.Keys <= channels.Keys
    ensures Filed(id, channels - {i}) && (permissions - {i}).Keys <= (channels - {i}).Keys
  {
  }

  lemma DropChildKeys<C>(children: map<C, map<nat, C>>, p: Option<C>, i: nat, id: map<C, nat>)
    requires SameKeys(children, id)
    ensures SameKeys(DropChild(children, p, i), id)
  {
  }

  lemma ChannelRemoveKeeps<C, U>(g: Graph<C, U>, id: Option<nat>)
    requires Inv(g)
    ensures Inv(OnChannelRemove(g, id).0)
  {
    if id.Some? && id.value in g.channels {
      var i := id.value;
      Known(g.id, g.channels, i);
      var c := g.channels[i];
      RemoveTree(g.id, g.channels, g.parent, g.children, c);
      RemoveLinks(g.id, g.channels, g.links, c);
      RemoveMaps(g.id, g.channels, g.permissions, i);
      DropChildKeys(g.children, ParentOf(g.parent, Some(c)), i, g.id);
      hide Filed, TreeOk, LinksOk, MembersOk, DropChild, DropAt, ParentOf, LinkedTo, SameKeys, Live;
    }
  }

  ghost predicate Nowhere<C, U>(members: map<C, map<nat, U>>, s: nat) {
    forall c | c in members :: s !in members[c]
  }

  lemma DropMember<C, U>(session: map<U, nat>, home: map<U, Option<C>>, users: map<nat, U>, members: map<C, map<nat, U>>, c: C, s: nat)
    requires MembersOk(session, home, users, members)
    ensures MembersOk(session, home, users, Drop(members, c, s)) && SameKeys(Drop(members, c, s), members)
  {
    var after := Drop(members, c, s);
    forall d, t | d in after && t in after[d] ensures MemberOf(session, home, users, d, t, after[d][t]) {
      assert MemberOf(session, home, users, d, t, members[d][t]);
    }
  }

  lemma OnlyThere<C, U>(session: map<U, nat>, home: map<U, Option<C>>, users: map<nat, U>, members: map<C, map<nat, U>>, s: nat)
    requires MembersOk(session, home, users, members) && s in users && users[s] in home
    ensures home[users[s]].None? ==> Nowhere(members, s)
    ensures home[users[s]].Some? ==> Nowhere(Drop(members, home[users[s]].value, s), s)
  {
    forall c | c in members && s in members[c] ensures home[users[s]] == Some(c) {
      assert MemberOf(session, home, users, c, s, members[c][s]);
    }
  }

  lemma LeaveMembers<C, U>(g: Graph<C, U>, u: U, s: nat)
    requires MembersOk(g.session, g.home, g.users, g.members)
    requires s in g.users && g.users[s] == u && u in g.home
    ensures var h := Leave(g, u, s);
      MembersOk(h.session, h.home, h.users, h.members) && SameKeys(h.members, g.members) && Nowhere(h.members, s)
  {
    OnlyThere(g.session, g.home, g.users, g.members, s);
    if g.home[u].Some? {
      DropMember(g.session, g.home, g.users, g.members, g.home[u].value, s);
    }
    hide MembersOk, Nowhere, Drop;
  }

  lemma PutMember<C, U>(session: map<U, nat>, home: map<U, Option<C>>, users: map<nat, U>, members: map<C, map<nat, U>>, c: C, s: nat, u: U)
    requires MembersOk(session, home, users, members) && c in members && MemberOf(session, home, users, c, s, u)
    ensures var after := Put(members, c, s, u);
      MembersOk(session, home, users, after) && SameKeys(after, members) && Has(after, c, s, u)
  {
    var after := Put(members, c, s, u);
    forall d, t | d in after && t in after[d] ensures MemberOf(session, home, users, d, t, after[d][t]) {
      assert (d == c && t == s) || MemberOf(session, home, users, d, t, members[d][t]);
    }
  }

  lemma NewHome<C, U>(session: map<U, nat>, home: map<U, Option<C>>, users: map<nat, U>, members: map<C, map<nat, U>>, u: U, s: nat, c: C)
    requires MembersOk(session, home, users, members) && Nowhere(members, s) && c in members
    requires u in session && session[u] == s && u in home
    ensures MembersOk(session, home[u := Some(c)], users, members) && SameKeys(home[u := Some(c)], home)
  {
    forall d, t | d in members && t in members[d] ensures MemberOf(session, home[u := Some(c)], users, d, t, members[d][t]) {
      assert t != s && MemberOf(session, home, users, d, t, members[d][t]);
    }
  }

  lemma EnterKeeps<C, U>(g: Graph<C, U>, u: U, s: nat, c: C)
    requires Inv(g) && Nowhere(g.members, s) && c in g.members && s in g.users && g.users[s] == u
    ensures var h := Enter(g, u, s, c); Inv(h) && Has(h.members, c, s, u) && u in h.home && h.home[u] == Some(c)
  {
    Known(g.session, g.users, s);
    var home := g.home[u := Some(c)];
    NewHome(g.session, g.home, g.users, g.members, u, s, c);
    PutMember(g.session, home, g.users, g.members, c, s, u);
    hide TreeOk, LinksOk, MembersOk, Filed, Nowhere, Put, Has;
  }

  lemma LeaveFrame<C, U>(g: Graph<C, U>, u: U, s: nat)
    ensures Leave(g, u, s) == g.(members := Leave(g, u, s).members)
  {
  }

  lemma LeaveKeeps<C, U>(g: Graph<C, U>, u: U, s: nat)
    requires Inv(g) && s in g.users && g.users[s] == u
    ensures var h := Leave(g, u, s);
      Inv(h) && Nowhere(h.members, s) && SameKeys(h.members, g.members) && h == g.(members := h.members)
  {
    assert u in g.session && SameKeys(g.home, g.session) && u in g.home;
    LeaveFrame(g, u, s);
    LeaveMembers(g, u, s);
    hide TreeOk, LinksOk, MembersOk, Filed, Nowhere, Leave;
  }

  lemma Arrive<C, U>(session: map<U, nat>, home: map<U, Option<C>>, users: map<nat, U>, members: map<C, map<nat, U>>, s: nat, u: U, c: Option<C>)
    requires MembersOk(session, home, users, members) && s !in users && u !in session && (c.Some? ==> c.value in members)
    ensures MembersOk(session[u := s], home[u := c], users[s := u], members) && Nowhere(members, s)
  {
    forall d, t | d in members && t in members[d]
      ensures t != s && MemberOf(session[u := s], home[u := c], users[s := u], d, t, members[d][t])
    {
      assert MemberOf(session, home, users, d, t, members[d][t]);
    }
  }

  lemma JoinKeeps<C, U>(g: Graph<C, U>, s: nat, u: U)
    requires Inv(g) && s !in g.users && u !in g.session
    ensures var h := Join(g, s, u); Inv(h) && (0 in g.channels ==> Has(h.members, g.channels[0], s, u))
  {
    var root := Lookup(g.channels, 0);
    Known(g.id, g.channels, 0);
    assert root.Some? ==> root.value in g.members by { hide Filed, TreeOk, LinksOk, MembersOk; }
    Arrive(g.session, g.home, g.users, g.members, s, u, root);
    NewEntry(g.session, g.users, u, s);
    NewKey(g.home, g.session, u, root, s);
    if root.Some? {
      PutMember(g.session[u := s], g.home[u := root], g.users[s := u], g.members, root.value, s, u);
    }
    hide TreeOk, LinksOk, MembersOk, Filed, Nowhere, Live, Put, Has;
  }

  lemma PersonKeeps<C, U>(g: Graph<C, U>, s: nat, spare: U)
    requires Inv(g) && spare !in g.session
    ensures var (u, h) := Person(g, s, spare);
      && Inv(h) && s in h.users && h.users[s] == u && h.channels == g.channels && h.id == g.id
      && (s !in g.users && 0 in g.channels ==> Has(h.members, g.channels[0], s, u))
  {
    if s !in g.users {
      JoinKeeps(g, s, spare);
    }
    hide Inv, Has;
  }

  lemma ChannelHasMembers<C, U>(g: Graph<C, U>, i: nat)
    requires Inv(g) && i in g.channels
    ensures var c := g.channels[i]; c in g.members && Live(g.id, g.channels, c) && g.id[c] == i
  {
    Known(g.id, g.channels, i);
    hide Filed, TreeOk, LinksOk, MembersOk;
  }

  /** The user `s` is listed in `c` and its channel is `c`. */
  ghost predicate Sits<C, U>(g: Graph<C, U>, s: nat, c: C) {
    s in g.users && g.users[s] in g.home && g.home[g.users[s]] == Some(c) && Has(g.members, c, s, g.users[s])
  }

  /** The user `s` is in the channel with ID `i`, which is live. */
  ghost predicate Placed<C, U>(g: Graph<C, U>, s: nat, i: nat) {
    i in g.channels && Live(g.id, g.channels, g.channels[i]) && Sits(g, s, g.channels[i])
  }

  lemma Seated<C, U>(g: Graph<C, U>, s: nat, c: C, u: U)
    requires Inv(g) && Has(g.members, c, s, u)
    ensures Sits(g, s, c) && g.users[s] == u
  {
    assert MemberOf(g.session, g.home, g.users, c, s, u);
  }

  lemma TransferKeeps<C, U>(g: Graph<C, U>, u: U, s: nat, i: nat)
    requires Inv(g) && s in g.users && g.users[s] == u && i in g.channels
    ensures var h := Enter(Leave(g, u, s), u, s, g.channels[i]); Inv(h) && Placed(h, s, i)
  {
    LeaveKeeps(g, u, s);
    var g1 := Leave(g, u, s);
    ChannelHasMembers(g1, i);
    var c := g.channels[i];
    EnterKeeps(g1, u, s, c);
    Seated(Enter(g1, u, s, c), s, c, u);
    hide Inv, Has, Sits, Live, Leave, Nowhere;
  }

  lemma MoveUserKeeps<C, U>(g: Graph<C, U>, u: U, s: nat, channel: Option<nat>)
    requires Inv(g) && s in g.users && g.users[s] == u
    ensures var (h, out) := MoveUser(g, u, s, channel);
      Inv(h) && (channel.None? ==> h == g && out.Done?) && (channel.Some? && out.Done? ==> Placed(h, s, channel.value))
  {
    LeaveKeeps(g, u, s);
    if channel.Some? && channel.value in g.channels {
      TransferKeeps(g, u, s, channel.value);
    }
    hide Inv, Placed, Leave, Enter, Nowhere;
  }

  lemma PersonSits<C, U>(g: Graph<C, U>, s: nat, spare: U)
    requires Inv(g) && spare !in g.session && s !in g.users && 0 in g.channels
    ensures var (u, h) := Person(g, s, spare); Placed(h, s, 0)
  {
    var (u, h) := Person(g, s, spare);
    PersonKeeps(g, s, spare);
    ChannelHasMembers(h, 0);
    Seated(h, s, g.channels[0], u);
    hide Inv, Has, Sits, Live, Person;
  }

  /** UserState keeps the invariant whatever its outcome. */
  lemma UserStateKeeps<C, U>(g: Graph<C, U>, m: UserState, spare: U)
    requires Inv(g) && spare !in g.session
    ensures Inv(OnUserState(g, m, spare).0)
  {
    if m.session.Some? {
      var (u, g1) := Person(g, m.session.value, spare);
      PersonKeeps(g, m.session.value, spare);
      MoveUserKeeps(g1, u, m.session.value, m.channel);
      hide Inv, Has, Placed, Person, MoveUser;
    }
  }

  /** A UserState that succeeds and creates the user or names a channel leaves the user in the map of its channel,
      which is the one named, or else the root. */
  lemma UserStatePlaces<C, U>(g: Graph<C, U>, m: UserState, spare: U)
    requires Inv(g) && spare !in g.session
    requires OnUserState(g, m, spare).1.Done? && (m.session.value !in g.users || m.channel.Some?)
    ensures Placed(OnUserState(g, m, spare).0, m.session.value, if m.channel.Some? then m.channel.value else 0)
  {
    var s := m.session.value;
    var (u, g1) := Person(g, s, spare);
    PersonKeeps(g, s, spare);
    if m.channel.None? {
      PersonSits(g, s, spare);
    }
    MoveUserKeeps(g1, u, s, m.channel);
    hide Inv, Has, Placed, Person, MoveUser;
  }

  /** A UserState moves no other user. */
  lemma OthersStay<C, U>(g: Graph<C, U>, m: UserState, spare: U, c: C, t: nat)
    requires m.session.Some? && t != m.session.value && c in g.members
    ensures var h := OnUserState(g, m, spare).0; c in h.members && (t in h.members[c] <==> t in g.members[c])
  {
    var (u, g1) := Person(g, m.session.value, spare);
    assert c in g1.members && (t in g1.members[c] <==> t in g.members[c]);
    MoveUserOthers(g1, u, m.session.value, m.channel, c, t);
    hide Person, MoveUser;
  }

  lemma LeaveOthers<C, U>(g: Graph<C, U>, u: U, s: nat, c: C, t: nat)
    requires t != s && c in g.members
    ensures var h := Leave(g, u, s); c in h.members && (t in h.members[c] <==> t in g.members[c])
  {
  }

  lemma EnterOthers<C, U>(g: Graph<C, U>, u: U, s: nat, d: C, c: C, t: nat)
    requires t != s && c in g.members
    ensures var h := Enter(g, u, s, d); c in h.members && (t in h.members[c] <==> t in g.members[c])
  {
  }

  lemma MoveUserOthers<C, U>(g: Graph<C, U>, u: U, s: nat, channel: Option<nat>, c: C, t: nat)
    requires t != s && c in g.members
    ensures var h := MoveUser(g, u, s, channel).0; c in h.members && (t in h.members[c] <==> t in g.members[c])
  {
    hide Leave, Enter;
    LeaveOthers(g, u, s, c, t);
    if channel.Some? && channel.value in g.channels {
      EnterOthers(Leave(g, u, s), u, s, g.channels[channel.value], c, t);
    }
  }

  /** A user is in no channel but its own: the map of no other channel, live or removed, lists it. */
  lemma InOneChannel<C, U>(g: Graph<C, U>, s: nat, t: nat, c: C, d: C, u: U)
    requires Inv(g) && Has(g.members, c, s, u) && Has(g.members, d, t, u)
    ensures c == d && s == t && u in g.home && g.home[u] == Some(c) && s in g.users && g.users[s] == u
  {
    assert MemberOf(g.session, g.home, g.users, c, s, u);
    assert MemberOf(g.session, g.home, g.users, d, t, u);
  }

  /** A UserState naming an unknown channel fails, and still takes a known user out of every channel. */
  lemma UnknownChannelEvicts<C, U>(g: Graph<C, U>, m: UserState, spare: U)
    requires Inv(g) && spare !in g.session && m.session.Some? && m.session.value in g.users
    requires m.channel.Some? && m.channel.value !in g.channels && (m.actor.Some? ==> m.actor.value in g.users)
    ensures var (h, out) := OnUserState(g, m, spare); out.Invalid? && Nowhere(h.members, m.session.value) && h.home == g.home
  {
    LeaveKeeps(g, g.users[m.session.value], m.session.value);
  }

  /** Does a UserState get as far as its channel field? */
  predicate ReachesChannel<C(==), U(==)>(g: Graph<C, U>, m: UserState)
    requires m.session.Some?
  {
    && (m.session.value in g.users || 0 in g.channels)
    && (m.actor.Some? ==> m.actor.value in g.users || m.actor == m.session)
  }

  lemma DropNothing<C, U>(members: map<C, map<nat, U>>, c: C, s: nat)
    requires c in members
    ensures Drop(members, c, s) == members <==> s !in members[c]
  {
    if s !in members[c] {
      assert members[c] - {s} == members[c];
    } else {
      assert s !in Drop(members, c, s)[c];
    }
  }

  lemma LeaveChanges<C, U>(g: Graph<C, U>, s: nat)
    requires Inv(g) && s in g.users
    ensures Leave(g, g.users[s], s) != g <==> !Nowhere(g.members, s)
  {
    var u := g.users[s];
    assert u in g.home by {
      assert u in g.session && SameKeys(g.home, g.session);
    }
    OnlyThere(g.session, g.home, g.users, g.members, s);
    if g.home[u].Some? {
      DropNothing(g.members, g.home[u].value, s);
      assert g.home[u].value in g.members;
    }
    LeaveFrame(g, u, s);
    hide TreeOk, LinksOk, Filed;
  }

  lemma SessionNamed<C, U>(g: Graph<C, U>, m: UserState, spare: U)
    ensures OnUserState(g, m, spare).1.Invalid? ==> m.session.Some?
  {
    hide Join, Leave, Enter;
  }

  lemma RejectedKnown<C, U>(g: Graph<C, U>, m: UserState, spare: U)
    requires m.session.Some? && m.session.value in g.users && OnUserState(g, m, spare).1.Invalid?
    ensures OnUserState(g, m, spare).0 ==
      if ReachesChannel(g, m) && m.channel.Some? then Leave(g, g.users[m.session.value], m.session.value) else g
  {
    hide Join, Leave, Enter;
  }

  /** Exactly when a rejected UserState changes the graph all the same: when it names a new session, or when it gets as
      far as a channel field that names an unknown channel while the user is still listed somewhere. */
  lemma RejectedUserStateChanges<C, U>(g: Graph<C, U>, m: UserState, spare: U)
    requires Inv(g) && spare !in g.session && OnUserState(g, m, spare).1.Invalid?
    ensures m.session.Some?
    ensures OnUserState(g, m, spare).0 != g <==>
      m.session.value !in g.users || (ReachesChannel(g, m) && m.channel.Some? && !Nowhere(g.members, m.session.value))
  {
    hide Inv, Join, Leave, Enter, Nowhere, OnUserState, ReachesChannel;
    SessionNamed(g, m, spare);
    if m.session.value in g.users {
      RejectedKnown(g, m, spare);
      LeaveChanges(g, m.session.value);
    } else {
      JoinedStays(g, m, spare);
    }
  }

  lemma JoinedStays<C, U>(g: Graph<C, U>, m: UserState, spare: U)
    requires m.session.Some? && m.session.value !in g.users
    ensures m.session.value in OnUserState(g, m, spare).0.users
  {
    var (u, g1) := Person(g, m.session.value, spare);
    assert m.session.value in g1.users;
    LeaveFrame(g1, u, m.session.value);
    hide Person, Leave;
  }

  lemma GoneMembers<C, U>(session: map<U, nat>, home: map<U, Option<C>>, users: map<nat, U>, members: map<C, map<nat, U>>, s: nat)
    requires MembersOk(session, home, users, members) && Nowhere(members, s)
    ensures MembersOk(session, home, users - {s}, members)
  {
    forall d, t | d in members && t in members[d] ensures MemberOf(session, home, users - {s}, d, t, members[d][t]) {
      assert t != s && MemberOf(session, home, users, d, t, members[d][t]);
    }
  }

  lemma GoneFiled<O>(key: map<O, nat>, book: map<nat, O>, k: nat)
    requires Filed(key, book)
    ensures Filed(key, book - {k})
  {
  }

  lemma UserRemoveKeeps<C, U>(g: Graph<C, U>, session: Option<nat>, actor: Option<nat>)
    requires Inv(g)
    ensures var (h, out) := OnUserRemove(g, session, actor);
      Inv(h) && (out.Done? ==> session.value !in h.users && Nowhere(h.members, session.value))
  {
    if session.Some? && session.value in g.users && (actor.Some? ==> actor.value in g.users) {
      var s := session.value;
      LeaveKeeps(g, g.users[s], s);
      var h := Leave(g, g.users[s], s);
      GoneMembers(h.session, h.home, h.users, h.members, s);
      GoneFiled(h.session, h.users, s);
      hide Nowhere, Filed, TreeOk, LinksOk, MembersOk, Leave;
    }
  }

  lemma FiledValue<C>(key: map<C, nat>, book: map<nat, C>, ks: set<nat>)
    requires Filed(key, book) && ks <= book.Keys
    ensures forall k | k in ks :: Live(key, book, book[k]) && key[book[k]] == k
  {
  }

  lemma PermissionQueryKeeps<C, U>(g: Graph<C, U>, channel: Option<nat>, permissions: Option<nat>, flush: bool)
    requires Inv(g)
    ensures Inv(OnPermissionQuery(g, channel, permissions, flush).0)
  {
    hide Filed, TreeOk, LinksOk, MembersOk, SameKeys;
  }

  lemma ReportedKnown<C, U>(g: Graph<C, U>, channel: Option<nat>, permissions: Option<nat>, flush: bool)
    requires g.permissions.Keys <= g.channels.Keys
    ensures Reported(g, channel, permissions, flush) <= g.channels.Keys
  {
  }

  /** Every channel ID a PermissionQuery reports is that of a live channel, a flush included. */
  lemma ReportedAreLive<C, U>(g: Graph<C, U>, channel: Option<nat>, permissions: Option<nat>, flush: bool)
    requires Inv(g)
    ensures var h := OnPermissionQuery(g, channel, permissions, flush).0; var ids := Reported(g, channel, permissions, flush);
      ids <= h.channels.Keys && forall i | i in ids :: Live(h.id, h.channels, h.channels[i]) && h.id[h.channels[i]] == i
  {
    ReportedKnown(g, channel, permissions, flush);
    FiledValue(g.id, g.channels, Reported(g, channel, permissions, flush));
    hide Filed, TreeOk, LinksOk, MembersOk, Whole, Reported, Live;
  }
}
