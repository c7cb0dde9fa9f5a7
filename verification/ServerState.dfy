/** The client's channel and user objects, updated in place by the message handlers. Every handler is proved to do what
    ServerGraph says of the object graph, read off the heap by `Snapshot`. */
module ServerState {
  import opened Options
  import G = ServerGraph
  import Run = ServerRun

  class Channel {
    const id: nat
    var name: string
    var parent: Channel?
    var children: map<nat, Channel>
    var links: map<nat, Channel>
    var users: map<nat, User>

    constructor (id: nat)
      ensures this.id == id && name == "" && parent == null && children == map[] && links == map[] && users == map[]
    {
      this.id, name, parent := id, "", null;
      children, links, users := map[], map[], map[];
    }
  }

  class User {
    const session: nat
    var channel: Channel?

    constructor (session: nat)
      ensures this.session == session && channel == null
    {
      this.session, channel := session, null;
    }
  }

  function Maybe(c: Channel?): Option<Channel> {
    if c == null then None
    else
      var known: Channel := c;
      Some(known)
  }

  function Just(c: Channel?): set<Channel> {
    if c == null then {} else {c}
  }

  /** Whether `channel` is among the first 1025 objects from `candidate` up. */
  method IsChannelDescendant(candidate: Channel?, channel: Channel, ghost all: set<Channel>)
      returns (below: bool)
    requires (candidate != null ==> candidate in all) && forall c | c in all && c.parent != null :: c.parent in all
    ensures below == G.IsDescendant(map c | c in all :: Maybe(c.parent), Maybe(candidate), channel, G.MAX_CHANNEL_DEPTH + 1)
  {
    ghost var parent := map c | c in all :: Maybe(c.parent);
    var at, i := candidate, 0;
    while at != null && i <= G.MAX_CHANNEL_DEPTH
      invariant 0 <= i <= G.MAX_CHANNEL_DEPTH + 1 && (at != null ==> at in all)
      invariant G.IsDescendant(parent, Maybe(candidate), channel, G.MAX_CHANNEL_DEPTH + 1)
             == G.IsDescendant(parent, Maybe(at), channel, G.MAX_CHANNEL_DEPTH + 1 - i)
    {
      if at == channel { return true; }
      at, i := at.parent, i + 1;
    }
    return false;
  }

  class Client {
    var channels: map<nat, Channel>
    var users: map<nat, User>
    var permissions: map<nat, nat>
    /** Every object ever created, still known to the client or not. */
    ghost var all: set<Channel>
    ghost var people: set<User>

    constructor ()
      ensures Valid() && Snapshot() == Run.Empty()
    {
      channels, users, permissions := map[], map[], map[];
      all, people := {}, {};
    }

    // -------------------------------------------------------------- the graph on the heap

    ghost function Ids(): map<Channel, nat> reads this`all { map c | c in all :: c.id }
    ghost function Names(): map<Channel, string> reads this`all, all`name { map c | c in all :: c.name }
    ghost function Parents(): map<Channel, Option<Channel>> reads this`all, all`parent { map c | c in all :: Maybe(c.parent) }
    ghost function Children(): map<Channel, map<nat, Channel>> reads this`all, all`children { map c | c in all :: c.children }
    ghost function Links(): map<Channel, map<nat, Channel>> reads this`all, all`links { map c | c in all :: c.links }
    ghost function Members(): map<Channel, map<nat, User>> reads this`all, all`users { map c | c in all :: c.users }
    ghost function Sessions(): map<User, nat> reads this`people { map u | u in people :: u.session }
    ghost function Homes(): map<User, Option<Channel>> reads this`people, people`channel { map u | u in people :: Maybe(u.channel) }

    ghost function Snapshot(): G.Graph<Channel, User> reads this, all, people {
      G.Graph(Ids(), Names(), Parents(), Children(), Links(), Members(), Sessions(), Homes(), channels, users, permissions)
    }

    ghost predicate Valid() reads this, all, people {
      G.Inv(Snapshot())
    }

    // -------------------------------------------------------------- single assignments

    method PutChild(p: Channel?, i: nat, c: Channel)
      requires p != null ==> p in all
      modifies Just(p)`children
      ensures Children() == G.AddChild(old(Children()), Maybe(p), i, c)
    {
      if p != null { p.children := p.children[i := c]; }
    }

    method DropChild(p: Channel?, i: nat)
      requires p != null ==> p in all
      modifies Just(p)`children
      ensures Children() == G.DropChild(old(Children()), Maybe(p), i)
    {
      if p != null { p.children := p.children - {i}; }
    }

    method PutLink(c: Channel, i: nat, l: Channel)
      requires c in all
      modifies c`links
      ensures Links() == G.Put(old(Links()), c, i, l)
    {
      c.links := c.links[i := l];
    }

    method DropLink(c: Channel, i: nat)
      requires c in all
      modifies c`links
      ensures Links() == G.Drop(old(Links()), c, i)
    {
      c.links := c.links - {i};
    }

    method PutUser(c: Channel, s: nat, u: User)
      requires c in all
      modifies c`users
      ensures Members() == G.Put(old(Members()), c, s, u)
    {
      c.users := c.users[s := u];
    }

    method DropUser(c: Channel, s: nat)
      requires c in all
      modifies c`users
      ensures Members() == G.Drop(old(Members()), c, s)
    {
      c.users := c.users - {s};
    }

    method SetParent(c: Channel, p: Channel?)
      requires c in all
      modifies c`parent
      ensures Parents() == old(Parents())[c := Maybe(p)] && c.parent == p
    {
      c.parent := p;
    }

    method SetName(c: Channel, name: Option<string>)
      requires c in all
      modifies c`name
      ensures Names() == G.Rename(old(Names()), c, name)
    {
      if name.Some? { c.name := name.value; }
    }

    method SetChannel(u: User, c: Channel)
      requires u in people
      modifies u`channel
      ensures Homes() == old(Homes())[u := Some(c)] && u.channel == c
    {
      u.channel := c;
    }

    // -------------------------------------------------------------- where pointers lead

    lemma PointersInside()
      requires Valid()
      ensures forall c | c in all && c.parent != null :: c.parent in all
      ensures forall u | u in people && u.channel != null :: u.channel in all
      ensures forall i | i in channels :: channels[i] in all && channels[i].id == i
      ensures forall s | s in users :: users[s] in people && users[s].session == s
    {
      forall c | c in all && c.parent != null ensures c.parent in all { assert Parents()[c].value in Ids(); }
      forall u | u in people && u.channel != null ensures u.channel in all { assert Homes()[u].value in Members(); }
      forall i | i in channels ensures channels[i] in all && channels[i].id == i { assert channels[i] in Ids(); }
      forall s | s in users ensures users[s] in people && users[s].session == s { assert users[s] in Sessions(); }
    }

    lemma ParentIs(c: Channel)
      requires c in all
      ensures G.ParentOf(Parents(), Some(c)) == Maybe(c.parent)
    {
    }

    lemma IsLive(c: Channel)
      requires c in all && c.id in channels && channels[c.id] == c
      ensures G.Live(Ids(), channels, c) && Ids()[c] == c.id
    {
    }

    lemma LinksInside(c: Channel)
      requires Valid() && c in all && c.id in channels && channels[c.id] == c
      ensures forall i | i in c.links :: c.links[i] in all && c.links[i].id == i
    {
      forall i | i in c.links ensures c.links[i] in all && c.links[i].id == i {
        assert G.Live(Ids(), channels, c) && c in Links();
        assert G.LinkBetween(Ids(), channels, Links(), c, i, Links()[c][i]);
      }
    }

    // -------------------------------------------------------------- ChannelState

    twostate lemma NewTree(new c: Channel)
      requires c !in old(all) && all == old(all) + {c} && c.parent == null && c.children == map[]
      requires forall d | d in old(all) :: d.parent == old(d.parent) && d.children == old(d.children)
      ensures Parents() == old(Parents())[c := None] && Children() == old(Children())[c := map[]]
    {
    }

    twostate lemma NewNamed(new c: Channel)
      requires c !in old(all) && all == old(all) + {c} && c.name == ""
      requires forall d | d in old(all) :: d.name == old(d.name)
      ensures Ids() == old(Ids())[c := c.id] && Names() == old(Names())[c := ""]
    {
    }

    twostate lemma NewLinks(new c: Channel)
      requires c !in old(all) && all == old(all) + {c} && c.links == map[] && c.users == map[]
      requires forall d | d in old(all) :: d.links == old(d.links) && d.users == old(d.users)
      ensures Links() == old(Links())[c := map[]] && Members() == old(Members())[c := map[]]
    {
    }

    /** A new channel object with this ID. */
    method Create(i: nat) returns (c: Channel)
      modifies this`channels, this`all
      ensures fresh(c) && c.id == i && all == old(all) + {c} && channels == old(channels)[i := c]
      ensures Ids() == old(Ids())[c := i] && Names() == old(Names())[c := ""] && Parents() == old(Parents())[c := None]
      ensures Children() == old(Children())[c := map[]] && Links() == old(Links())[c := map[]]
      ensures Members() == old(Members())[c := map[]]
    {
      hide Ids, Names, Parents, Children, Links, Members;
      c := new Channel(i);
      channels := channels[i := c];
      all := all + {c};
      NewTree(c);
      NewNamed(c);
      NewLinks(c);
    }

    twostate lemma IdsOf()
      ensures old(Ids()).Keys == old(all)
    {
    }

    /** The channel with this ID, made on the spot if it is new. */
    method Subject(i: nat) returns (c: Channel)
      requires Valid()
      modifies this`channels, this`all
      ensures Valid() && c in all && c.id == i && i in channels && channels[i] == c
      ensures (c, Snapshot()) == G.Subject(old(Snapshot()), i, c)
      ensures i in old(channels) || fresh(c)
      ensures old(all) <= all && fresh(all - old(all))
    {
      hide G.Inv, Ids, Names, Parents, Children, Links, Members, Sessions, Homes;
      if i in channels {
        c := channels[i];
        PointersInside();
      } else {
        ghost var before := Snapshot();
        c := Create(i);
        IdsOf();
        G.CreateKeeps(before, i, c);
      }
    }

    /** Takes a channel from its parent and puts it under another, or under none. */
    method Reparent(c: Channel, p: Channel?)
      requires c in all && (c.parent != null ==> c.parent in all) && (p != null ==> p in all)
      modifies all`parent, all`children
      ensures Snapshot() == G.Reparent(old(Snapshot()), c, c.id, Maybe(p))
    {
      hide Ids, Names, Parents, Children, Links, Members, Sessions, Homes;
      ParentIs(c);
      DropChild(c.parent, c.id);
      SetParent(c, p);
      PutChild(c.parent, c.id, c);
    }

    /** The parent field of a ChannelState. */
    method MoveTo(c: Channel, parent: Option<nat>)
      requires Valid() && c in all && c.id in channels && channels[c.id] == c
      modifies all`parent, all`children
      ensures Valid() && Snapshot() == G.MoveTo(old(Snapshot()), c, c.id, parent)
    {
      hide G.Inv, G.Reparent, G.IsDescendant, Ids, Names, Children, Links, Members, Sessions, Homes;
      ghost var before := Snapshot();
      PointersInside();
      IsLive(c);
      G.MoveToKeeps(before, c, c.id, parent);
      if parent.Some? {
        var p: Channel? := if parent.value in channels then channels[parent.value] else null;
        assert Maybe(p) == G.Lookup(channels, parent.value);
        var below := IsChannelDescendant(p, c, all);
        assert below == G.IsDescendant(Parents(), Maybe(p), c, G.MAX_CHANNEL_DEPTH + 1);
        if !below { Reparent(c, p); }
      }
    }

    /** Deletes every link of a channel, at both ends. */
    method ClearLinks(c: Channel)
      requires c in all && forall j | j in c.links :: c.links[j] in all && c.links[j].id == j
      modifies all`links
      ensures Links() == G.ClearLinks(old(Links()), c, c.id)
    {
      ghost var before, was := Links(), c.links;
      ghost var seen: set<Channel> := {};
      var todo := c.links.Keys;
      UntouchedLinks(before, c, c.id);
      while todo != {}
        invariant c.links.Keys == todo <= was.Keys && forall k | k in todo :: c.links[k] == was[k]
        invariant seen <= was.Values && forall k | k in was :: k in todo || was[k] in seen
        invariant Links() == G.DropAt(before, seen, c.id)[c := c.links]
        decreases todo
      {
        hide Links;
        var j :| j in todo;
        var l := c.links[j];
        ghost var rest := c.links;
        ClearStep(before, seen, c, rest, l, j);
        DropLink(l, c.id);
        DropLink(c, j);
        seen, todo := seen + {l}, todo - {j};
      }
      assert seen == was.Values;
    }

    lemma UntouchedLinks(links: map<Channel, map<nat, Channel>>, c: Channel, i: nat)
      requires c in links
      ensures G.DropAt(links, {}, i)[c := links[c]] == links
    {
    }

    lemma DropMore(links: map<Channel, map<nat, Channel>>, seen: set<Channel>, l: Channel, i: nat)
      requires l in links
      ensures G.Drop(G.DropAt(links, seen, i), l, i) == G.DropAt(links, seen + {l}, i)
    {
      var m, n := G.Drop(G.DropAt(links, seen, i), l, i), G.DropAt(links, seen + {l}, i);
      assert m.Keys == n.Keys == links.Keys;
      forall d | d in m ensures m[d] == n[d] { }
    }

    lemma ClearStep(links: map<Channel, map<nat, Channel>>, seen: set<Channel>, c: Channel, rest: map<nat, Channel>, l: Channel, j: nat)
      requires l in links && c in links && (l == c ==> j == c.id) && c in G.DropAt(links, seen, c.id)
      ensures G.Drop(G.Drop(G.DropAt(links, seen, c.id)[c := rest], l, c.id), c, j) == G.DropAt(links, seen + {l}, c.id)[c := rest - {j}]
    {
      var m := G.DropAt(links, seen, c.id);
      DropMore(links, seen, l, c.id);
      hide G.DropAt;
      if l == c {
        assert rest - {j} - {j} == rest - {j};
        assert G.Drop(m[c := rest], l, c.id) == m[c := rest - {j}];
        assert G.Drop(m[c := rest - {j}], c, j) == m[c := rest - {j}];
        assert G.Drop(m, l, c.id)[c := rest - {j}] == m[c := rest - {j}];
      } else {
        assert G.Drop(m[c := rest], l, c.id) == G.Drop(m, l, c.id)[c := rest];
      }
    }

    method LinkAll(c: Channel, ids: seq<nat>)
      requires c in all && forall j | j in channels :: channels[j] in all
      modifies all`links
      ensures Links() == G.LinkAll(channels, old(Links()), c, c.id, ids)
    {
      for k := 0 to |ids|
        invariant Links() == G.LinkAll(channels, old(Links()), c, c.id, ids[..k])
      {
        assert ids[..k + 1][..k] == ids[..k];
        var j := ids[k];
        if j in channels {
          PutLink(c, j, channels[j]);
          PutLink(channels[j], c.id, c);
        }
      }
      assert ids[..|ids|] == ids;
    }

    method UnlinkAll(c: Channel, ids: seq<nat>)
      requires c in all && forall j | j in channels :: channels[j] in all
      modifies all`links
      ensures Links() == G.UnlinkAll(channels, old(Links()), c, c.id, ids)
    {
      for k := 0 to |ids|
        invariant Links() == G.UnlinkAll(channels, old(Links()), c, c.id, ids[..k])
      {
        assert ids[..k + 1][..k] == ids[..k];
        var j := ids[k];
        if j in channels {
          DropLink(c, j);
          DropLink(channels[j], c.id);
        }
      }
      assert ids[..|ids|] == ids;
    }

    method Relink(c: Channel, m: G.ChannelState)
      requires Valid() && c in all && c.id in channels && channels[c.id] == c
      modifies all`links
      ensures Links() == G.Relink(channels, old(Links()), c, m, c.id)
    {
      PointersInside();
      if m.links != [] {
        LinksInside(c);
        ClearLinks(c);
        LinkAll(c, m.links);
      }
      LinkAll(c, m.linksAdd);
      UnlinkAll(c, m.linksRemove);
    }

    /** A ChannelState message. */
    method HandleChannelState(m: G.ChannelState) returns (out: G.Outcome)
      requires Valid()
      modifies this, all
      ensures Valid() && old(all) <= all && fresh(all - old(all)) && people == old(people)
      ensures m.id.None? ==> out == G.Incomplete && Snapshot() == old(Snapshot())
      ensures m.id.Some? ==>
        && m.id.value in channels && (m.id.value in old(channels) || fresh(channels[m.id.value]))
        && (Snapshot(), out) == G.OnChannelState(old(Snapshot()), m, channels[m.id.value])
    {
      hide G.Inv, G.Relink, G.MoveTo, G.Rename, G.Subject, Ids, Names, Parents, Children, Links, Members, Sessions, Homes;
      if m.id.None? { return G.Incomplete; }
      ghost var before := Snapshot();
      var c := Subject(m.id.value);
      MoveTo(c, m.parent);
      IsLive(c);
      G.RenameKeeps(Snapshot(), c, m.name);
      SetName(c, m.name);
      G.RelinkKeeps(Snapshot(), c, c.id, m);
      Relink(c, m);
      out := G.Done;
    }

    // -------------------------------------------------------------- ChannelRemove

    /** Deletes the far end of every link of a channel. */
    method DropBackLinks(c: Channel)
      requires c in all && forall j | j in c.links :: c.links[j] in all
      modifies all`links
      ensures Links() == G.DropAt(old(Links()), G.LinkedTo(old(Links()), c), c.id)
    {
      ghost var before := Links();
      ghost var seen: set<Channel> := {};
      var links := c.links;
      var todo := links.Keys;
      assert G.DropAt(before, {}, c.id) == before;
      while todo != {}
        invariant todo <= links.Keys && seen <= links.Values && forall k | k in links :: k in todo || links[k] in seen
        invariant Links() == G.DropAt(before, seen, c.id)
        decreases todo
      {
        hide Links;
        var j :| j in todo;
        DropMore(before, seen, links[j], c.id);
        DropLink(links[j], c.id);
        seen, todo := seen + {links[j]}, todo - {j};
      }
      assert seen == links.Values;
    }

    /** Takes a channel from its parent, and from every channel it is linked to. */
    method Unhook(c: Channel)
      requires c in all && (c.parent != null ==> c.parent in all) && forall j | j in c.links :: c.links[j] in all
      modifies all`children, all`links
      ensures Children() == G.DropChild(old(Children()), G.ParentOf(Parents(), Some(c)), c.id)
      ensures Links() == G.DropAt(old(Links()), G.LinkedTo(old(Links()), c), c.id)
    {
      hide Parents, Children, Links;
      ParentIs(c);
      DropChild(c.parent, c.id);
      DropBackLinks(c);
    }

    /** A ChannelRemove message. */
    method HandleChannelRemove(id: Option<nat>) returns (out: G.Outcome)
      requires Valid()
      modifies this`channels, this`permissions, all`children, all`links
      ensures Valid() && (Snapshot(), out) == G.OnChannelRemove(old(Snapshot()), id)
    {
      hide G.Inv, G.DropAt, G.LinkedTo, G.DropChild, G.ParentOf, Ids, Names, Parents, Children, Links, Members, Sessions, Homes;
      G.ChannelRemoveKeeps(Snapshot(), id);
      if id.None? { return G.Incomplete; }
      if id.value !in channels { return G.Invalid; }
      var c := channels[id.value];
      assert c in all && c.id == id.value && (c.parent != null ==> c.parent in all) by { PointersInside(); }
      LinksInside(c);
      channels, permissions := channels - {id.value}, permissions - {id.value};
      Unhook(c);
      out := G.Done;
    }

    // -------------------------------------------------------------- UserState and UserRemove

    twostate lemma NewUser(new u: User)
      requires u !in old(people) && people == old(people) + {u}
      requires forall v | v in old(people) :: v.channel == old(v.channel)
      ensures Sessions() == old(Sessions())[u := u.session] && Homes() == old(Homes())[u := Maybe(u.channel)]
    {
    }

    /** A new user object, with the root channel, if there is one, as its channel. */
    method CreateUser(s: nat) returns (u: User)
      modifies this`users, this`people
      ensures fresh(u) && u.session == s && people == old(people) + {u} && users == old(users)[s := u]
      ensures Sessions() == old(Sessions())[u := s] && Homes() == old(Homes())[u := G.Lookup(channels, 0)]
      ensures Maybe(u.channel) == G.Lookup(channels, 0)
    {
      hide Sessions, Homes;
      u := new User(s);
      users := users[s := u];
      people := people + {u};
      u.channel := if 0 in channels then channels[0] else null;
      NewUser(u);
    }

    /** The user with this session, made on the spot if it is new; `placed` is false if there is no root channel. */
    method Person(s: nat) returns (u: User, placed: bool)
      requires Valid()
      modifies this`users, this`people, all`users
      ensures Valid() && u in people && u.session == s && s in users && users[s] == u
      ensures (u, Snapshot()) == G.Person(old(Snapshot()), s, u)
      ensures placed == (s in old(users) || 0 in channels)
      ensures s in old(users) || fresh(u)
      ensures old(people) <= people && fresh(people - old(people))
    {
      hide G.Inv, Ids, Names, Parents, Children, Links, Members, Sessions, Homes;
      PointersInside();
      placed := true;
      if s in users {
        u := users[s];
      } else {
        ghost var before := Snapshot();
        u := CreateUser(s);
        SessionsOf();
        G.JoinKeeps(before, s, u);
        if u.channel != null { PutUser(u.channel, s, u); } else { placed := false; }
      }
    }

    twostate lemma SessionsOf()
      ensures old(Sessions()).Keys == old(people)
    {
    }

    method Leave(u: User)
      requires u in people && (u.channel != null ==> u.channel in all)
      modifies all`users
      ensures Snapshot() == G.Leave(old(Snapshot()), u, u.session)
    {
      hide Ids, Names, Parents, Children, Links, Members, Sessions, Homes;
      HomeIs(u);
      if u.channel != null { DropUser(u.channel, u.session); }
    }

    lemma HomeIs(u: User)
      requires u in people
      ensures u in Homes() && Homes()[u] == Maybe(u.channel)
    {
    }

    method Enter(u: User, c: Channel)
      requires u in people && c in all
      modifies all`users, people`channel
      ensures Snapshot() == G.Enter(old(Snapshot()), u, u.session, c)
    {
      hide Ids, Names, Parents, Children, Links, Members, Sessions, Homes;
      SetChannel(u, c);
      PutUser(u.channel, u.session, u);
    }

    /** The channel field of a UserState. */
    method MoveUser(u: User, channel: Option<nat>) returns (out: G.Outcome)
      requires Valid() && u in people && u.session in users && users[u.session] == u
      modifies all`users, people`channel
      ensures Valid() && (Snapshot(), out) == G.MoveUser(old(Snapshot()), u, u.session, channel)
    {
      hide G.Inv, G.Leave, G.Enter, Ids, Names, Parents, Children, Links, Members, Sessions, Homes;
      G.MoveUserKeeps(Snapshot(), u, u.session, channel);
      if channel.None? { return G.Done; }
      PointersInside();
      Leave(u);
      if channel.value !in channels { return G.Invalid; }
      Enter(u, channels[channel.value]);
      out := G.Done;
    }

    /** A UserState message. */
    method HandleUserState(m: G.UserState) returns (out: G.Outcome)
      requires Valid()
      modifies this, all, people
      ensures Valid() && old(people) <= people && fresh(people - old(people)) && all == old(all)
      ensures m.session.None? ==> out == G.Incomplete && Snapshot() == old(Snapshot())
      ensures m.session.Some? ==>
        && m.session.value in users && (m.session.value in old(users) || fresh(users[m.session.value]))
        && (Snapshot(), out) == G.OnUserState(old(Snapshot()), m, users[m.session.value])
    {
      hide G.Inv, G.Person, G.MoveUser, Ids, Names, Parents, Children, Links, Members, Sessions, Homes;
      if m.session.None? { return G.Incomplete; }
      var u, placed := Person(m.session.value);
      if !placed { return G.Invalid; }
      if m.actor.Some? && m.actor.value !in users { return G.Invalid; }
      out := MoveUser(u, m.channel);
    }

    /** A UserRemove message. */
    method HandleUserRemove(session: Option<nat>, actor: Option<nat>) returns (out: G.Outcome)
      requires Valid()
      modifies this`users, all`users
      ensures Valid() && (Snapshot(), out) == G.OnUserRemove(old(Snapshot()), session, actor)
    {
      hide G.Inv, G.Leave, Ids, Names, Parents, Children, Links, Members, Sessions, Homes;
      G.UserRemoveKeeps(Snapshot(), session, actor);
      if session.None? { return G.Incomplete; }
      if session.value !in users { return G.Invalid; }
      if actor.Some? && actor.value !in users { return G.Invalid; }
      PointersInside();
      Leave(users[session.value]);
      users := users - {session.value};
      out := G.Done;
    }

    // -------------------------------------------------------------- PermissionQuery

    /** `found` holds exactly the channels with these IDs, and nil for none of them. */
    ghost predicate Reports(found: seq<Channel?>, ids: set<nat>)
      reads this`channels
    {
      && ids <= channels.Keys
      && (forall c | c in found :: c != null && c.id in ids && channels[c.id] == c)
      && (forall i | i in ids :: channels[i] in found)
    }

    lemma ReportsOneMore(found: seq<Channel?>, ids: set<nat>, c: Channel)
      requires Reports(found, ids) && c.id in channels && channels[c.id] == c
      ensures Reports(found + [c], ids + {c.id})
    {
    }

    /** Forgets all permissions if asked to, and finds the channels this changes. */
    method Flush(flush: bool) returns (changed: seq<Channel?>)
      requires permissions.Keys <= channels.Keys && forall i | i in channels :: channels[i].id == i
      modifies this`permissions
      ensures permissions == if flush then map[] else old(permissions)
      ensures Reports(changed, if flush then old(permissions).Keys else {})
    {
      hide Reports;
      if flush {
        changed := ChannelsOf(permissions.Keys);
        permissions := map[];
      } else {
        changed := ChannelsOf({});
      }
    }

    /** A PermissionQuery message; `changed` holds the channels reported as changed, none of them nil. */
    method HandlePermissionQuery(channel: Option<nat>, bits: Option<nat>, flush: bool)
        returns (out: G.Outcome, changed: seq<Channel?>)
      requires Valid()
      modifies this`permissions
      ensures Valid()
      ensures (Snapshot(), out) == G.OnPermissionQuery(old(Snapshot()), channel, bits, flush)
      ensures Reports(changed, G.Reported(old(Snapshot()), channel, bits, flush))
    {
      hide G.Inv, Reports, Ids, Names, Parents, Children, Links, Members, Sessions, Homes;
      G.PermissionQueryKeeps(Snapshot(), channel, bits, flush);
      PointersInside();
      PermissionsInside();
      if channel.Some? && bits.Some? && channel.value !in channels {
        changed := ChannelsOf({});
        return G.Invalid, changed;
      }
      changed := Flush(flush);
      ghost var flushed := if flush then old(permissions).Keys else {};
      if channel.Some? && bits.Some? {
        var single := channels[channel.value];
        ReportsOneMore(changed, flushed, single);
        permissions := permissions[single.id := bits.value];
        changed := changed + [single];
      } else {
        assert flushed + {} == flushed;
      }
      out := G.Done;
    }

    lemma PermissionsInside()
      requires Valid()
      ensures permissions.Keys <= channels.Keys
    {
    }

    /** The channels with these IDs. */
    method ChannelsOf(ids: set<nat>) returns (found: seq<Channel?>)
      requires ids <= channels.Keys && forall i | i in channels :: channels[i].id == i
      ensures Reports(found, ids)
    {
      found := [];
      var todo := ids;
      while todo != {}
        invariant todo <= ids && Reports(found, ids - todo)
        decreases todo
      {
        var i :| i in todo;
        ReportsOneMore(found, ids - todo, channels[i]);
        assert ids - todo + {i} == ids - (todo - {i});
        found := found + [channels[i]];
        todo := todo - {i};
      }
    }

    // -------------------------------------------------------------- walking up

    /** `pieces` names the first objects from `x` up. */
    ghost predicate NamesUp(parent: map<Channel, Option<Channel>>, names: map<Channel, string>, x: Option<Channel>, pieces: seq<string>) {
      forall k | 0 <= k < |pieces| ::
        var c := G.Up(parent, x, k); c.Some? && c.value in names && pieces[k] == names[c.value]
    }

    lemma OneMoreName(c: Channel, x: Option<Channel>, pieces: seq<string>)
      requires c in all && NamesUp(Parents(), Names(), x, pieces) && G.Up(Parents(), x, |pieces|) == Some(c)
      ensures NamesUp(Parents(), Names(), x, pieces + [c.name]) && G.Up(Parents(), x, |pieces| + 1) == Maybe(c.parent)
    {
      Run.UpAdd(Parents(), x, |pieces|, 1);
      ParentIs(c);
      assert G.Up(Parents(), Some(c), 1) == G.Up(Parents(), Maybe(c.parent), 0);
    }

    /** The names on the way from the root down to `channel`; the walk ends because the parents form no cycle. */
    method ChannelPath(channel: Channel?) returns (pieces: seq<string>)
      requires Valid() && G.Acyclic(Parents()) && (channel != null ==> channel in all)
      ensures G.Up(Parents(), Maybe(channel), |pieces|) == None
      ensures exists up :: pieces == Backwards(up) && NamesUp(Parents(), Names(), Maybe(channel), up)
    {
      hide G.Inv, NamesUp, Ids, Names, Parents, Children, Links, Members, Sessions, Homes, Backwards;
      PointersInside();
      ghost var x, height := Maybe(channel), Height(channel);
      var up: seq<string> := [];
      var at := channel;
      NoNames(x);
      while at != null
        invariant (at != null ==> at in all) && |up| <= height
        invariant G.Up(Parents(), x, |up|) == Maybe(at) && G.Up(Parents(), x, height) == None
        invariant NamesUp(Parents(), Names(), x, up)
        decreases height - |up|
      {
        OneMoreName(at, x, up);
        up := up + [at.name];
        at := at.parent;
      }
      pieces := Reversed(up);
    }

    lemma NoNames(x: Option<Channel>)
      ensures NamesUp(Parents(), Names(), x, [])
    {
    }

    ghost function Height(channel: Channel?): (height: nat)
      reads this, all, people
      requires Valid() && G.Acyclic(Parents()) && (channel != null ==> channel in all)
      ensures G.Up(Parents(), Maybe(channel), height) == None
    {
      if channel == null then 0
      else
        assert G.Rooted(Parents(), Maybe(channel));
        var height: nat :| G.Up(Parents(), Maybe(channel), height) == None;
        height
    }
  }

  ghost function Backwards(s: seq<string>): (r: seq<string>)
    ensures |r| == |s| && forall k | 0 <= k < |s| :: r[|s| - 1 - k] == s[k]
  {
    seq(|s|, k requires 0 <= k < |s| => s[|s| - 1 - k])
  }

  /** The swapping loop at the end of the path. */
  method Reversed(s: seq<string>) returns (r: seq<string>)
    ensures r == Backwards(s)
  {
    r := s;
    for i := 0 to |s| / 2
      invariant |r| == |s|
      invariant forall k | 0 <= k < i :: r[|s| - 1 - k] == s[k] && r[k] == s[|s| - 1 - k]
      invariant forall k | i <= k < |s| - i :: r[k] == s[k]
    {
      r := r[|s| - 1 - i := r[i]][i := r[|s| - 1 - i]];
    }
  }
}
