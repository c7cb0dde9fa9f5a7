/** What a listener hears of an undisturbed stream, and of one that is muted. */
module JitterStreams {
  import opened Jitter
  import opened Numbers

  // ---------------------------------------------------------------- frame numbers are playing time

  /** Interleaved stereo in whole frames of 10 ms. */
  predicate Stereo(p: Packet) {
    p.samples > 0 && p.samples % (2 * FRAME_SIZE) == 0
  }

  function Frames(p: Packet): nat {
    p.samples / (2 * FRAME_SIZE)
  }

  /** The frame number advances by one for every 10 ms of stereo. */
  lemma StepIsTime(p: Packet)
    requires Stereo(p)
    ensures FrameStep(p) == Frames(p) > 0 && Duration(p) == Frames(p) * 10_000_000
  {
    var n := Frames(p);
    assert p.samples == 960 * n;
    assert p.samples / 2 == 480 * n;
  }

  // ---------------------------------------------------------------- streams in order

  /** Stereo packets of one burst, each numbered at or beyond the end of the one before. */
  ghost predicate Spaced(ps: seq<Packet>) {
    && (forall i | 0 <= i < |ps| :: Stereo(ps[i]) && !ps[i].terminator)
    && (forall i | 0 < i < |ps| :: EndsBefore(ps[i - 1], ps[i]))
  }

  predicate EndsBefore(p: Packet, q: Packet) {
    p.number + Frames(p) <= q.number
  }

  function Plays(ps: seq<Packet>): seq<Event> {
    if ps == [] then [] else [Played(ps[0])] + Plays(ps[1..])
  }

  lemma {:induction false} PlaysConcat(ps: seq<Packet>, qs: seq<Packet>)
    ensures Plays(ps + qs) == Plays(ps) + Plays(qs)
  {
    if ps == [] {
      assert ps + qs == qs;
    } else {
      assert (ps + qs)[1..] == ps[1..] + qs;
      PlaysConcat(ps[1..], qs);
    }
  }

  lemma {:induction false} PlaysEach(ps: seq<Packet>, i: nat)
    requires i < |ps|
    ensures |Plays(ps)| == |ps| && Plays(ps)[i] == Played(ps[i])
  {
    if |ps| > 1 {
      PlaysEach(ps[1..], if i > 0 then i - 1 else 0);
    }
  }

  lemma SpacedPart(ps: seq<Packet>, i: nat, j: nat)
    requires Spaced(ps) && i <= j <= |ps|
    ensures Spaced(ps[i..j])
  {
    hide Stereo, EndsBefore;
    var qs := ps[i..j];
    forall k | 0 < k < |qs|
      ensures EndsBefore(qs[k - 1], qs[k])
    {
      assert qs[k - 1] == ps[i + k - 1] && qs[k] == ps[i + k];
      assert EndsBefore(ps[i + k - 1], ps[i + k]);
    }
  }

  lemma {:induction false} SpacedRises(ps: seq<Packet>, i: nat, j: nat)
    requires Spaced(ps) && i < j < |ps|
    ensures ps[i].number < ps[j].number
  {
    hide Stereo, Frames;
    StepIsTime(ps[j - 1]);
    assert EndsBefore(ps[j - 1], ps[j]);
    if i < j - 1 {
      SpacedRises(ps, i, j - 1);
    }
  }

  /** After a packet that is not the last, the expected number is at most the next packet's. */
  lemma NextFollows(p: Packet, q: Packet)
    requires Stereo(p) && EndsBefore(p, q)
    ensures Following(p) == p.number + Frames(p) <= q.number
  {
    hide Stereo, Duration, FrameStep, Frames;
    StepIsTime(p);
  }

  // ---------------------------------------------------------------- the drain loop loses nothing

  lemma SpacedTail(ps: seq<Packet>)
    requires Spaced(ps) && ps != []
    ensures Spaced(ps[1..])
    ensures |ps| > 1 ==> Following(ps[0]) <= ps[1].number
  {
    hide Stereo, EndsBefore, Following;
    SpacedPart(ps, 1, |ps|);
    assert ps[1..|ps|] == ps[1..];
    if |ps| > 1 {
      assert EndsBefore(ps[1 - 1], ps[1]);
      NextFollows(ps[0], ps[1]);
    }
  }

  // One turn on a stream in order plays its first packet or steps up to it.
  lemma TurnPlays(b: Buffer)
    requires b.packets != [] && b.next <= b.packets[0].number
    ensures Turn(b) == if b.next == b.packets[0].number
                       then (Pop(b).(next := Following(b.packets[0]), lateRun := 0), [Played(b.packets[0])])
                       else (b.(next := b.packets[0].number), [])
  {
    hide Duration, Following, ShouldResync, Wrap64;
  }

  lemma DrainTurns(b: Buffer)
    requires b.packets != []
    ensures Drain(b) == (Drain(Turn(b).0).0, Turn(b).1 + Drain(Turn(b).0).1)
  {
    hide Turn;
  }

  lemma {:induction false} DrainPlaysAll(b: Buffer)
    requires Spaced(b.packets) && (b.packets != [] ==> b.next <= b.packets[0].number)
    ensures var (c, es) := Drain(b);
      && es == Plays(b.packets) && c.packets == [] && c.init == b.init && c.started == b.started
      && c.next == (if b.packets == [] then b.next else Following(b.packets[|b.packets| - 1]))
    decreases Rank(b)
  {
    hide Duration, Following, ShouldResync, Wrap64, Spaced, Turn, Rank;
    if b.packets != [] {
      var c := Turn(b).0;
      TurnRank(b);
      TurnPlays(b);
      SpacedTail(b.packets);
      DrainTurns(b);
      DrainPlaysAll(c);
      assert b.packets[0].number != b.next ==> [] + Drain(c).1 == Drain(c).1;
    }
  }

  /** Once playback runs, a stream in order is played packet by packet, gaps or not. */
  lemma {:induction false} RunningPlays(b: Buffer, ps: seq<Packet>, target: int)
    requires Inv(b) && b.started && Spaced(ps) && (ps != [] ==> b.next <= ps[0].number)
    ensures Run(b, Unmuted(ps, target)).1 == Plays(ps)
    decreases |ps|
  {
    hide Receive, Following, Stereo, EndsBefore, ShouldResync, Wrap64;
    if ps != [] {
      var p, rest := ps[0], ps[1..];
      StartedStep(b, p, target);
      assert PlayEvents(b, p) == [Played(p)];
      ReceiveInv(b, p, false, target, p);
      var c := Receive(b, p, false, target).0;
      SpacedPart(ps, 1, |ps|);
      assert ps[1..|ps|] == rest;
      if rest != [] {
        assert EndsBefore(ps[0], ps[1]);
        NextFollows(p, rest[0]);
      }
      RunningPlays(c, rest, target);
      var arrivals := Unmuted(ps, target);
      assert arrivals[0] == Arrival(p, false, target) && arrivals[1..] == Unmuted(rest, target);
    }
  }

  // ---------------------------------------------------------------- from the first packet on

  /** The first `k` packets of a stream, waiting for the playout delay. */
  function Waiting(ps: seq<Packet>, k: nat): Buffer
    requires k <= |ps|
  {
    Buffer(ps[..k], TotalDuration(ps[..k]), if k == 0 then 0 else ps[0].number, k > 0, false, 0)
  }

  lemma {:induction false} TotalMore(ps: seq<Packet>, p: Packet)
    ensures TotalDuration(ps + [p]) == TotalDuration(ps) + Duration(p)
  {
    hide Duration;
    if ps != [] {
      assert (ps + [p])[1..] == ps[1..] + [p];
      TotalMore(ps[1..], p);
    } else {
      assert ps + [p] == [p] && [p][1..] == [];
    }
  }

  lemma {:induction false} TotalGrows(ps: seq<Packet>, k: nat)
    requires k <= |ps|
    ensures TotalDuration(ps[..k]) <= TotalDuration(ps)
    decreases |ps|
  {
    hide Duration;
    if k < |ps| {
      var n := |ps| - 1;
      assert ps == ps[..n] + [ps[n]] && ps[..n][..k] == ps[..k];
      TotalMore(ps[..n], ps[n]);
      TotalGrows(ps[..n], k);
    } else {
      assert ps[..k] == ps;
    }
  }

  lemma InsertLast(ps: seq<Packet>, k: nat)
    requires Spaced(ps) && k < |ps| && k < MAX_PACKETS
    ensures var (c, es) := Insert(Waiting(ps, k), ps[k]);
      es == [] && c == Waiting(ps, k).(packets := ps[..k + 1], duration := TotalDuration(ps[..k + 1]))
  {
    hide Duration, Stereo, EndsBefore, TotalDuration;
    var s, p := ps[..k], ps[k];
    forall i | 0 <= i < k
      ensures s[i].number < p.number
    {
      SpacedRises(ps, i, k);
    }
    assert Place(s, p.number) == k;
    assert s[..k] + [p] + s[k..] == ps[..k + 1] == s + [p];
    TotalMore(s, p);
  }

  lemma WaitingStep(ps: seq<Packet>, k: nat, target: int)
    requires Spaced(ps) && k < |ps| && k < MAX_PACKETS
    ensures var w := Waiting(ps, k + 1);
      Receive(Waiting(ps, k), ps[k], false, target)
      == if w.duration < target then (w, []) else Drain(w.(started := true))
  {
    hide Duration, Stereo, EndsBefore, TotalDuration, Drain, Place;
    InsertLast(ps, k);
    assert ps[..k + 1][0] == ps[0];
    assert Stereo(ps[k]) && !ps[k].terminator;
    var w := Waiting(ps, k + 1);
    assert [] + Drain(w.(started := true)).1 == Drain(w.(started := true)).1;
  }

  lemma WaitingInv(ps: seq<Packet>, k: nat)
    requires Spaced(ps) && k <= |ps| && k <= MAX_PACKETS
    ensures Inv(Waiting(ps, k))
  {
    hide Duration, Stereo, EndsBefore, TotalDuration;
    forall i, j | 0 <= i < j < k
      ensures ps[..k][i].number < ps[..k][j].number
    {
      SpacedRises(ps, i, j);
    }
  }

  /** The playout delay is met by the time the buffer is full, if it ever is. */
  predicate StartsInTime(ps: seq<Packet>, target: int) {
    |ps| <= MAX_PACKETS || TotalDuration(ps[..MAX_PACKETS]) >= target
  }

  lemma StartingPlays(ps: seq<Packet>, k: nat, target: int)
    requires Spaced(ps) && k < |ps| && k < MAX_PACKETS && TotalDuration(ps[..k + 1]) >= target
    ensures Run(Waiting(ps, k), Unmuted(ps[k..], target)).1 == Plays(ps)
  {
    hide Duration, Stereo, EndsBefore, TotalDuration, Receive, Drain, Run, Following, ShouldResync, Wrap64;
    var b, w, rest := Waiting(ps, k), Waiting(ps, k + 1), ps[k + 1..];
    WaitingInv(ps, k);
    WaitingStep(ps, k, target);
    ReceiveInv(b, ps[k], false, target, ps[k]);
    SpacedPart(ps, 0, k + 1);
    assert ps[0..k + 1] == ps[..k + 1];
    DrainPlaysAll(w.(started := true));
    var (c, es) := Drain(w.(started := true));
    SpacedPart(ps, k + 1, |ps|);
    assert ps[k + 1..|ps|] == rest;
    if rest != [] {
      assert EndsBefore(ps[k + 1 - 1], ps[k + 1]);
      assert Stereo(ps[k]);
      NextFollows(ps[k], rest[0]);
    }
    RunningPlays(c, rest, target);
    RunUnmuted(b, ps[k..], target);
    assert ps[k..][0] == ps[k] && ps[k..][1..] == rest;
    PlaysConcat(ps[..k + 1], rest);
    assert ps[..k + 1] + rest == ps;
  }

  lemma RunUnmuted(b: Buffer, ps: seq<Packet>, target: int)
    requires ps != []
    ensures var (c, es) := Receive(b, ps[0], false, target);
      Run(b, Unmuted(ps, target)).1 == es + Run(c, Unmuted(ps[1..], target)).1
  {
    hide Receive;
    var arrivals := Unmuted(ps, target);
    assert arrivals[0] == Arrival(ps[0], false, target) && arrivals[1..] == Unmuted(ps[1..], target);
  }

  lemma {:induction false} WaitingPlays(ps: seq<Packet>, k: nat, target: int)
    requires Spaced(ps) && k <= |ps| && k <= MAX_PACKETS && StartsInTime(ps, target)
    requires k == 0 || TotalDuration(ps[..k]) < target
    ensures Run(Waiting(ps, k), Unmuted(ps[k..], target)).1
         == if ps != [] && TotalDuration(ps) >= target then Plays(ps) else []
    decreases |ps| - k
  {
    hide Duration, Stereo, EndsBefore, TotalDuration, Receive, Drain, Plays;
    if k == |ps| {
      assert ps[k..] == [] && ps[..k] == ps;
    } else {
      assert k < MAX_PACKETS;
      TotalGrows(ps, k + 1);
      if TotalDuration(ps[..k + 1]) >= target {
        StartingPlays(ps, k, target);
      } else {
        WaitingStep(ps, k, target);
        RunUnmuted(Waiting(ps, k), ps[k..], target);
        assert ps[k..][0] == ps[k] && ps[k..][1..] == ps[k + 1..];
        WaitingPlays(ps, k + 1, target);
      }
    }
  }

  /** A stream in order is heard whole: with a playout delay that it meets before the buffer is full, every packet is
      played, once and in order, and nothing else happens; a shorter one is still waiting. */
  lemma InOrderIsHeard(ps: seq<Packet>, target: int)
    requires Spaced(ps) && StartsInTime(ps, target)
    ensures Run(EMPTY, Unmuted(ps, target)).1 == if ps != [] && TotalDuration(ps) >= target then Plays(ps) else []
  {
    hide Run, Plays, Spaced;
    assert Waiting(ps, 0) == EMPTY && ps[0..] == ps;
    WaitingPlays(ps, 0, target);
  }

  /** Without a playout delay, every stream in order is played as it comes. */
  lemma PlayedAsItComes(ps: seq<Packet>)
    requires Spaced(ps)
    ensures Run(EMPTY, Unmuted(ps, 0)).1 == Plays(ps)
  {
    InOrderIsHeard(ps, 0);
    hide Run, Spaced;
  }

  // ---------------------------------------------------------------- packets that arrive out of order

  lemma CountOnce(ps: seq<Packet>, i: nat)
    requires i < |ps| && forall j | 0 <= j < |ps| && j != i :: ps[j] != ps[i]
    ensures multiset(ps)[ps[i]] == 1
  {
    assert ps == ps[..i] + [ps[i]] + ps[i + 1..];
    assert ps[i] !in ps[..i] && ps[i] !in ps[i + 1..];
  }

  lemma CountTwice(qs: seq<Packet>, i: nat, j: nat)
    requires i < j < |qs| && qs[i] == qs[j]
    ensures multiset(qs)[qs[i]] >= 2
  {
    assert qs == qs[..j] + [qs[j]] + qs[j + 1..];
    assert qs[..j][i] == qs[i];
    assert qs[i] in qs[..j] && qs[i] in multiset(qs[..j]);
  }

  lemma SpacedApart(ps: seq<Packet>, i: nat, j: nat)
    requires Spaced(ps) && i < |ps| && j < |ps| && i != j
    ensures ps[i].number != ps[j].number
  {
    if i < j { SpacedRises(ps, i, j); } else { SpacedRises(ps, j, i); }
    hide Spaced;
  }

  // However a stream is shuffled, no two packets have one number.
  lemma NoTwins(ps: seq<Packet>, qs: seq<Packet>, i: nat, j: nat)
    requires Spaced(ps) && multiset(qs) == multiset(ps) && i < j < |qs|
    ensures qs[i].number != qs[j].number
  {
    hide Spaced;
    assert qs[i] in multiset(qs) && qs[j] in multiset(qs);
    var a :| 0 <= a < |ps| && ps[a] == qs[i];
    var b :| 0 <= b < |ps| && ps[b] == qs[j];
    if a != b {
      SpacedApart(ps, a, b);
    } else {
      forall c | 0 <= c < |ps| && c != a
        ensures ps[c] != ps[a]
      {
        SpacedApart(ps, a, c);
      }
      CountOnce(ps, a);
      CountTwice(qs, i, j);
    }
  }

  lemma {:induction false} SortedOnlyOneWay(s: seq<Packet>, t: seq<Packet>)
    requires Sorted(s) && Sorted(t) && multiset(s) == multiset(t)
    ensures s == t
    decreases |s|
  {
    hide Sorted;
    assert |s| == |multiset(s)| && |t| == |multiset(t)|;
    if s != [] {
      LeastFirst(s, t);
      LeastFirst(t, s);
      assert s == [s[0]] + s[1..] && t == [t[0]] + t[1..];
      SameLeast(s, t);
      SortedTail(s);
      SortedTail(t);
      SortedOnlyOneWay(s[1..], t[1..]);
    }
  }

  lemma LeastFirst(s: seq<Packet>, t: seq<Packet>)
    requires Sorted(s) && s != [] && t != [] && t[0] in multiset(s)
    ensures s[0].number <= t[0].number && (s[0].number == t[0].number ==> s[0] == t[0])
  {
    var a :| 0 <= a < |s| && s[a] == t[0];
  }

  lemma SameLeast(s: seq<Packet>, t: seq<Packet>)
    requires s != [] && t != [] && s[0] == t[0] && multiset(s) == multiset(t)
    ensures multiset(s[1..]) == multiset(t[1..])
  {
    assert s == [s[0]] + s[1..] && t == [t[0]] + t[1..];
    assert multiset(s[1..]) == multiset(s) - multiset{s[0]};
    assert multiset(t[1..]) == multiset(t) - multiset{t[0]};
  }

  /** The first `k` packets to arrive are held, sorted; the first of them set the expected number. */
  ghost predicate Gathered(b: Buffer, qs: seq<Packet>, k: nat)
    requires k <= |qs|
  {
    && Sorted(b.packets) && |b.packets| == k && multiset(b.packets) == multiset(qs[..k])
    && b == Buffer(b.packets, TotalDuration(qs[..k]), if k == 0 then 0 else qs[0].number, k > 0, false, 0)
  }

  lemma InsertNew(b: Buffer, p: Packet)
    requires Sorted(b.packets) && |b.packets| < MAX_PACKETS
    requires forall i | 0 <= i < |b.packets| :: b.packets[i].number != p.number
    ensures var (c, es) := Insert(b, p);
      && es == [] && Sorted(c.packets) && |c.packets| == |b.packets| + 1
      && multiset(c.packets) == multiset(b.packets) + multiset{p}
      && c == b.(packets := c.packets, duration := b.duration + Duration(p))
  {
    hide Duration, Sorted;
    var i := Place(b.packets, p.number);
    InsertNotThere(b.packets, i, p);
    if i > 0 { assert b.packets[i - 1].number < p.number; }
    SortedInsert(b.packets, i, p);
  }

  lemma InsertNotThere(s: seq<Packet>, i: nat, p: Packet)
    requires i <= |s|
    ensures multiset(s[..i] + [p] + s[i..]) == multiset(s) + multiset{p}
  {
    assert s == s[..i] + s[i..];
  }

  lemma GatherStep(b: Buffer, ps: seq<Packet>, qs: seq<Packet>, k: nat, target: int) returns (c: Buffer)
    requires Spaced(ps) && multiset(qs) == multiset(ps) && k < |qs| && k < MAX_PACKETS && Gathered(b, qs, k)
    ensures Gathered(c, qs, k + 1)
    ensures Receive(b, qs[k], false, target) == if c.duration < target then (c, []) else Drain(c.(started := true))
  {
    hide Duration, Stereo, EndsBefore, TotalDuration, Drain, Insert, Sorted;
    var p := qs[k];
    assert p in multiset(qs);
    assert !p.terminator by {
      var a :| 0 <= a < |ps| && ps[a] == p;
    }
    forall i | 0 <= i < k
      ensures b.packets[i].number != p.number
    {
      assert b.packets[i] in multiset(b.packets);
      var j :| 0 <= j < k && qs[..k][j] == b.packets[i];
      NoTwins(ps, qs, j, k);
    }
    InsertNew(b, p);
    assert qs[..k + 1] == qs[..k] + [p];
    TotalMore(qs[..k], p);
    var d := Insert(b, p).0;
    c := if d.init then d else d.(next := d.packets[0].number, init := true);
    if k == 0 {
      assert d.packets[0] in multiset(d.packets);
    }
    assert [] + Drain(c.(started := true)).1 == Drain(c.(started := true)).1;
  }

  lemma LateFirst(b: Buffer)
    requires b.packets != [] && b.packets[0].number < b.next && b.lateRun == 0
    ensures Drain(b).1 != [] && Drain(b).1[0] == Late(b.packets[0])
  {
    hide Wrap64;
  }

  lemma {:induction false} GatheredRun(b: Buffer, ps: seq<Packet>, qs: seq<Packet>, k: nat, target: int)
    requires Spaced(ps) && multiset(qs) == multiset(ps) && k < |qs| <= MAX_PACKETS && Gathered(b, qs, k)
    requires TotalDuration(qs[..|qs| - 1]) < target <= TotalDuration(qs)
    ensures Run(b, Unmuted(qs[k..], target)).1 == Drain(Buffer(ps, TotalDuration(qs), qs[0].number, true, true, 0)).1
    decreases |qs| - k
  {
    hide Duration, Spaced, TotalDuration, Drain, Receive, Sorted;
    RunUnmuted(b, qs[k..], target);
    assert qs[k..][0] == qs[k] && qs[k..][1..] == qs[k + 1..];
    var c := GatherStep(b, ps, qs, k, target);
    if k + 1 < |qs| {
      assert qs[..|qs| - 1][..k + 1] == qs[..k + 1];
      TotalGrows(qs[..|qs| - 1], k + 1);
      GatheredRun(c, ps, qs, k + 1, target);
      assert [] + Run(c, Unmuted(qs[k + 1..], target)).1 == Run(c, Unmuted(qs[k + 1..], target)).1;
    } else {
      assert qs[..k + 1] == qs && qs[k + 1..] == [];
      SpacedSorted(ps);
      SortedOnlyOneWay(c.packets, ps);
      assert Unmuted([], target) == [];
    }
  }

  lemma SpacedSorted(ps: seq<Packet>)
    requires Spaced(ps)
    ensures Sorted(ps)
  {
    hide Spaced;
    forall i, j | 0 <= i < j < |ps|
      ensures ps[i].number < ps[j].number
    {
      SpacedRises(ps, i, j);
    }
  }

  /** Packets that arrive in any order while the playout delay lasts are put back in order and all played exactly
      when the first of them to arrive is the first of the stream; otherwise the first of the stream is thrown
      away as late, though nothing has been played yet. */
  lemma ReorderedIsHeard(ps: seq<Packet>, qs: seq<Packet>, target: int)
    requires Spaced(ps) && 0 < |ps| <= MAX_PACKETS && multiset(qs) == multiset(ps)
    requires qs != [] && TotalDuration(qs[..|qs| - 1]) < target <= TotalDuration(qs)
    ensures var es := Run(EMPTY, Unmuted(qs, target)).1;
      && (es == Plays(ps) <==> qs[0] == ps[0])
      && (qs[0] != ps[0] ==> es != [] && es[0] == Late(ps[0]))
  {
    hide Duration, Spaced, TotalDuration, Run, Drain;
    assert |multiset(qs)| == |qs| && |multiset(ps)| == |ps|;
    var start := EMPTY;
    assert Gathered(start, qs, 0) by {
      assert qs[..0] == [];
      NothingHeld();
    }
    assert qs[0..] == qs;
    GatheredRun(start, ps, qs, 0, target);
    var b := Buffer(ps, TotalDuration(qs), qs[0].number, true, true, 0);
    assert qs[0] in multiset(qs);
    var a :| 0 <= a < |ps| && ps[a] == qs[0];
    if a > 0 {
      SpacedRises(ps, 0, a);
      LateFirst(b);
      PlaysEach(ps, 0);
    } else {
      DrainPlaysAll(b);
    }
  }

  lemma NothingHeld()
    ensures TotalDuration([]) == 0
  {
  }

  // ---------------------------------------------------------------- when a restart is followed

  /** How many packets in a row were late: nothing played, no restart followed, no reset in between. */
  function LateInARow(n: nat, e: Event): nat {
    match e
    case Late(_) => n + 1
    case Played(_) => 0
    case Resynced => 0
    case Reset(_) => 0
    case _ => n
  }

  function LateCount(n: nat, es: seq<Event>): nat
    decreases |es|
  {
    if es == [] then n else LateCount(LateInARow(n, es[0]), es[1..])
  }

  lemma {:induction false} LateCountConcat(n: nat, es: seq<Event>, fs: seq<Event>)
    ensures LateCount(n, es + fs) == LateCount(LateCount(n, es), fs)
    decreases |es|
  {
    if es == [] {
      assert es + fs == fs;
    } else {
      assert (es + fs)[1..] == es[1..] + fs;
      LateCountConcat(LateInARow(n, es[0]), es[1..], fs);
    }
  }

  /** At event `k`, counting from `n`: a restart is followed only at the fifth late packet in a row. */
  predicate FollowedInTime(n: nat, es: seq<Event>, k: nat)
    requires k < |es|
  {
    es[k].Resynced? ==> LateCount(n, es[..k]) + 1 >= LATE_RESYNC
  }

  predicate AllInTime(n: nat, es: seq<Event>) {
    forall k | 0 <= k < |es| :: FollowedInTime(n, es, k)
  }

  lemma AllInTimeConcat(n: nat, es: seq<Event>, fs: seq<Event>)
    requires AllInTime(n, es) && AllInTime(LateCount(n, es), fs)
    ensures AllInTime(n, es + fs)
  {
    hide LateCount;
    forall k | 0 <= k < |es + fs|
      ensures FollowedInTime(n, es + fs, k)
    {
      if k < |es| {
        assert FollowedInTime(n, es, k) && (es + fs)[..k] == es[..k];
      } else {
        assert FollowedInTime(LateCount(n, es), fs, k - |es|);
        assert (es + fs)[..k] == es + fs[..k - |es|];
        LateCountConcat(n, es, fs[..k - |es|]);
      }
    }
  }

  lemma OneEvent(n: nat, e: Event)
    ensures LateCount(n, [e]) == LateInARow(n, e) && LateCount(n, []) == n
    ensures AllInTime(n, [e]) <==> (e.Resynced? ==> n + 1 >= LATE_RESYNC)
  {
    assert [e][1..] == [] && [e][..0] == [];
    assert AllInTime(n, [e]) ==> FollowedInTime(n, [e], 0);
  }

  lemma TurnLates(b: Buffer)
    requires b.packets != []
    ensures var (c, es) := Turn(b); c.lateRun == LateCount(b.lateRun, es) && AllInTime(b.lateRun, es)
  {
    hide Duration, Following, Wrap64, LateCount, AllInTime;
    var (c, es) := Turn(b);
    if es != [] {
      assert es == [es[0]];
      OneEvent(b.lateRun, es[0]);
    } else {
      OneEvent(b.lateRun, Resynced);
      NoEvents(b.lateRun);
    }
  }

  lemma NoEvents(n: nat)
    ensures AllInTime(n, []) && LateCount(n, []) == n
  {
  }

  lemma {:induction false} DrainLates(b: Buffer)
    ensures var (c, es) := Drain(b); c.lateRun == LateCount(b.lateRun, es) && AllInTime(b.lateRun, es)
    decreases Rank(b)
  {
    hide Turn, LateCount, AllInTime, Rank;
    if b.packets == [] {
      NoEvents(b.lateRun);
    } else {
      var (c, e) := Turn(b);
      TurnRank(b);
      TurnLates(b);
      DrainLates(c);
      LateCountConcat(b.lateRun, e, Drain(c).1);
      AllInTimeConcat(b.lateRun, e, Drain(c).1);
    }
  }

  lemma InsertLates(b: Buffer, p: Packet)
    ensures var (c, es) := Insert(b, p);
      c.lateRun == b.lateRun && LateCount(b.lateRun, es) == b.lateRun && AllInTime(b.lateRun, es)
  {
    hide Duration, LateCount, AllInTime, Place;
    NoEvents(b.lateRun);
    OneEvent(b.lateRun, Full(p));
    OneEvent(b.lateRun, Duplicate(p));
  }

  lemma ReceiveLates(b: Buffer, a: Arrival)
    ensures var (c, es) := Receive(b, a.p, a.muted, a.target);
      c.lateRun == LateCount(b.lateRun, es) && AllInTime(b.lateRun, es)
  {
    hide Insert, Drain, LateCount, AllInTime;
    OneEvent(b.lateRun, Reset(b.packets));
    OneEvent(b.lateRun, Muted(a.p));
    InsertLates(b, a.p);
    var (c, es) := Insert(b, a.p);
    var d := if !c.init && c.packets != [] then c.(next := c.packets[0].number, init := true) else c;
    if PlaybackReady(d.started, d.duration, a.target) {
      DrainLates(d.(started := true));
      LateCountConcat(b.lateRun, es, Drain(d.(started := true)).1);
      AllInTimeConcat(b.lateRun, es, Drain(d.(started := true)).1);
    }
  }

  lemma {:induction false} RunLates(b: Buffer, arrivals: seq<Arrival>)
    ensures var (c, es) := Run(b, arrivals); c.lateRun == LateCount(b.lateRun, es) && AllInTime(b.lateRun, es)
    decreases |arrivals|
  {
    hide Receive, LateCount, AllInTime;
    if arrivals == [] {
      NoEvents(b.lateRun);
    } else {
      var a := arrivals[0];
      var (c, es) := Receive(b, a.p, a.muted, a.target);
      ReceiveLates(b, a);
      RunLates(c, arrivals[1..]);
      LateCountConcat(b.lateRun, es, Run(c, arrivals[1..]).1);
      AllInTimeConcat(b.lateRun, es, Run(c, arrivals[1..]).1);
    }
  }

  /** In any run a restart is followed only after four packets were thrown away as late with nothing played, reset
      or followed since. */
  lemma FollowsAfterFourLate(arrivals: seq<Arrival>, k: nat)
    requires k < |Run(EMPTY, arrivals).1| && Run(EMPTY, arrivals).1[k].Resynced?
    ensures LateCount(0, Run(EMPTY, arrivals).1[..k]) >= 4
  {
    hide Run, LateCount;
    RunLates(EMPTY, arrivals);
    assert FollowedInTime(0, Run(EMPTY, arrivals).1, k);
  }

  // ---------------------------------------------------------------- a new burst, and a muted speaker

  /** After a terminator the next burst is heard as if it were the first, whatever its numbers. */
  lemma NextBurst(b: Buffer, last: Arrival, arrivals: seq<Arrival>)
    requires last.p.terminator
    ensures Run(b, [last] + arrivals).1 == [Reset(b.packets)] + Run(EMPTY, arrivals).1
  {
    assert ([last] + arrivals)[1..] == arrivals;
    hide Insert, Drain;
  }

  ghost predicate OnlyMuted(arrivals: seq<Arrival>, q: Packet) {
    forall i | 0 <= i < |arrivals| && arrivals[i].p == q :: arrivals[i].muted
  }

  lemma MutedStep(b: Buffer, a: Arrival, q: Packet)
    requires Inv(b) && Times(b.packets, q) == 0 && (a.p == q ==> a.muted)
    ensures var (c, es) := Receive(b, a.p, a.muted, a.target);
      Inv(c) && Times(c.packets, q) == 0 && Played(q) !in es
  {
    ReceiveInv(b, a.p, a.muted, a.target, q);
    var (c, es) := Receive(b, a.p, a.muted, a.target);
    if a.p != q || a.p.terminator {
      if Played(q) in es {
        var i :| 0 <= i < |es| && es[i] == Played(q);
        AccountedAt(es, i, q);
      }
    }
    hide Receive, Inv;
  }

  /** A packet that only ever arrives while its speaker is muted is never played. */
  lemma {:induction false} MutedIsSilent(b: Buffer, arrivals: seq<Arrival>, q: Packet)
    requires Inv(b) && Times(b.packets, q) == 0 && OnlyMuted(arrivals, q)
    ensures Played(q) !in Run(b, arrivals).1
    decreases |arrivals|
  {
    hide Receive, Inv, Times;
    if arrivals != [] {
      var a := arrivals[0];
      MutedStep(b, a, q);
      MutedIsSilent(Receive(b, a.p, a.muted, a.target).0, arrivals[1..], q);
    }
  }
}
