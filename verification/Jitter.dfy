/** The per-speaker jitter buffer: reorders packets by frame number, skips gaps, drops late packets and
    follows a sender that restarts its numbering. */
module Jitter {
  import opened Numbers
  import opened Options

  const MAX_PACKETS := 50
  const LATE_RESYNC := 5
  const RESYNC_JUMP := 100
  const SAMPLE_RATE := 48000
  const FRAME_SIZE := 480
  const SECOND := 1_000_000_000

  const TWO_63 := 0x8000_0000_0000_0000

  /** Signed 64-bit arithmetic wraps around. */
  function Wrap64(x: int): Int64 {
    (x + TWO_63) % (2 * TWO_63) - TWO_63
  }

  /** A decoded packet; `samples` is the length of its interleaved stereo PCM. */
  datatype Packet = Packet(id: nat, number: Int64, samples: nat, terminator: bool)

  /** Playing time in nanoseconds. */
  function Duration(p: Packet): nat {
    p.samples / 2 * SECOND / SAMPLE_RATE
  }

  /** How far the frame number advances over a packet: 10 ms units, at least one. */
  function FrameStep(p: Packet): (n: nat)
    ensures n >= 1
  {
    var frames := if p.samples > FRAME_SIZE && p.samples % 2 == 0 then p.samples / 2 else p.samples;
    if frames / FRAME_SIZE >= 1 then frames / FRAME_SIZE else 1
  }

  function Following(p: Packet): Int64 {
    Wrap64(p.number + FrameStep(p))
  }

  predicate Overflows(p: Packet) {
    p.number + FrameStep(p) >= TWO_63
  }

  predicate ShouldResync(lateRun: nat, backJump: Int64) {
    lateRun >= LATE_RESYNC && backJump >= RESYNC_JUMP
  }

  predicate PlaybackReady(started: bool, buffered: int, target: int) {
    started || buffered >= target
  }

  // ---------------------------------------------------------------- specification

  datatype Event =
    | Played(p: Packet)
    | Late(p: Packet)
    | Full(p: Packet)
    | Duplicate(p: Packet)
    | Muted(p: Packet)
    | Resynced
    | Reset(lost: seq<Packet>)

  datatype Buffer = Buffer(packets: seq<Packet>, duration: int, next: Int64, init: bool, started: bool, lateRun: nat)

  const EMPTY := Buffer([], 0, 0, false, false, 0)

  ghost predicate Sorted(s: seq<Packet>) {
    forall i, j | 0 <= i < j < |s| :: s[i].number < s[j].number
  }

  function TotalDuration(s: seq<Packet>): nat {
    if s == [] then 0 else Duration(s[0]) + TotalDuration(s[1..])
  }

  /** Index of the first packet whose number is not below `n`. */
  function Place(s: seq<Packet>, n: int): (i: nat)
    ensures i <= |s|
    ensures forall k | 0 <= k < i :: s[k].number < n
    ensures i < |s| ==> s[i].number >= n
  {
    if s == [] || s[0].number >= n then 0 else 1 + Place(s[1..], n)
  }

  function Insert(b: Buffer, p: Packet): (Buffer, seq<Event>) {
    var i := Place(b.packets, p.number);
    if |b.packets| >= MAX_PACKETS then (b, [Full(p)])
    else if i < |b.packets| && b.packets[i].number == p.number then (b, [Duplicate(p)])
    else (b.(packets := b.packets[..i] + [p] + b.packets[i..], duration := b.duration + Duration(p)), [])
  }

  function Pop(b: Buffer): Buffer
    requires b.packets != []
  {
    b.(packets := b.packets[1..], duration := b.duration - Duration(b.packets[0]))
  }

  /** One turn of the drain loop: play, skip a gap, follow a restart, or drop a late packet. */
  function Turn(b: Buffer): (r: (Buffer, seq<Event>))
    requires b.packets != []
    ensures Rank(r.0) < Rank(b)
  {
    var p := b.packets[0];
    if p.number == b.next then (Pop(b).(next := Following(p), lateRun := 0), [Played(p)])
    else if p.number > b.next then (b.(next := p.number), [])
    else if ShouldResync(b.lateRun + 1, Wrap64(b.next - p.number)) then
      (b.(next := p.number, lateRun := 0), [Resynced])
    else (Pop(b).(lateRun := b.lateRun + 1), [Late(p)])
  }

  /** The termination measure of the drain loop: a turn pops a packet or makes the next turn do so. */
  function Rank(b: Buffer): nat {
    2 * |b.packets| + if b.packets != [] && b.packets[0].number != b.next then 1 else 0
  }

  function Drain(b: Buffer): (Buffer, seq<Event>)
    decreases Rank(b)
  {
    if b.packets == [] then (b, [])
    else
      var (c, e) := Turn(b);
      var (r, es) := Drain(c);
      (r, e + es)
  }

  /** Everything one packet from the stream channel does. */
  function Receive(b: Buffer, p: Packet, muted: bool, target: int): (Buffer, seq<Event>) {
    if p.terminator then (EMPTY, [Reset(b.packets)])
    else if muted then (b, [Muted(p)])
    else
      var (c, es) := Insert(b, p);
      var d := if !c.init && c.packets != [] then c.(next := c.packets[0].number, init := true) else c;
      if !PlaybackReady(d.started, d.duration, target) then (d, es)
      else
        var (r, fs) := Drain(d.(started := true));
        (r, es + fs)
  }

  /** The stream was closed: what is buffered is played in order, gaps or not. */
  function Close(b: Buffer): (Buffer, seq<Event>)
    decreases |b.packets|
  {
    if b.packets == [] then (b, [])
    else
      var p := b.packets[0];
      var (r, es) := Close(Pop(b).(next := Following(p)));
      (r, [Played(p)] + es)
  }

  // ---------------------------------------------------------------- the invariant between packets

  ghost predicate Inv(b: Buffer) {
    && Sorted(b.packets) && |b.packets| <= MAX_PACKETS
    && b.duration == TotalDuration(b.packets)
    && (!b.init ==> b.packets == [] && !b.started)
    && (b.started ==> b.packets == [])
  }

  lemma {:induction false} TotalInsert(s: seq<Packet>, i: nat, p: Packet)
    requires i <= |s|
    ensures TotalDuration(s[..i] + [p] + s[i..]) == TotalDuration(s) + Duration(p)
  {
    hide Duration;
    var t := s[..i] + [p] + s[i..];
    if i == 0 {
      assert t[1..] == s;
    } else {
      assert t[1..] == s[1..][..i - 1] + [p] + s[1..][i - 1..];
      TotalInsert(s[1..], i - 1, p);
    }
  }

  lemma SortedInsert(s: seq<Packet>, i: nat, p: Packet)
    requires Sorted(s) && i <= |s|
    requires i > 0 ==> s[i - 1].number < p.number
    requires i < |s| ==> p.number < s[i].number
    ensures Sorted(s[..i] + [p] + s[i..])
  {
    var t := s[..i] + [p] + s[i..];
    forall j, k | 0 <= j < k < |t|
      ensures t[j].number < t[k].number
    {
      assert t[j] == if j < i then s[j] else if j == i then p else s[j - 1];
      assert t[k] == if k < i then s[k] else if k == i then p else s[k - 1];
    }
  }

  lemma {:induction false} TimesInsert(s: seq<Packet>, i: nat, p: Packet, q: Packet)
    requires i <= |s|
    ensures Times(s[..i] + [p] + s[i..], q) == Times(s, q) + if p == q then 1 else 0
  {
    var t := s[..i] + [p] + s[i..];
    if i == 0 {
      assert t[1..] == s;
    } else {
      assert t[1..] == s[1..][..i - 1] + [p] + s[1..][i - 1..];
      TimesInsert(s[1..], i - 1, p, q);
    }
  }

  lemma SortedTail(s: seq<Packet>)
    requires s != [] && Sorted(s)
    ensures Sorted(s[1..])
  {
  }

  // ---------------------------------------------------------------- conservation

  function Times(s: seq<Packet>, q: Packet): nat {
    if s == [] then 0 else (if s[0] == q then 1 else 0) + Times(s[1..], q)
  }

  /** How often an event disposes of packet `q`. */
  function Account(e: Event, q: Packet): nat {
    match e
    case Resynced => 0
    case Reset(lost) => Times(lost, q)
    case _ => if e.p == q then 1 else 0
  }

  function Accounted(es: seq<Event>, q: Packet): nat {
    if es == [] then 0 else Account(es[0], q) + Accounted(es[1..], q)
  }

  lemma {:induction false} AccountedConcat(es: seq<Event>, fs: seq<Event>, q: Packet)
    ensures Accounted(es + fs, q) == Accounted(es, q) + Accounted(fs, q)
  {
    if es == [] {
      assert es + fs == fs;
    } else {
      assert (es + fs)[1..] == es[1..] + fs;
      AccountedConcat(es[1..], fs, q);
    }
  }

  predicate Booked(b: Buffer) {
    b.duration == TotalDuration(b.packets)
  }

  lemma InsertInv(b: Buffer, p: Packet, q: Packet)
    requires Sorted(b.packets) && |b.packets| <= MAX_PACKETS && Booked(b)
    ensures var (c, es) := Insert(b, p);
            && Sorted(c.packets) && |c.packets| <= MAX_PACKETS && Booked(c)
            && c == b.(packets := c.packets, duration := c.duration)
            && (b.packets == [] ==> c.packets == [p] && es == [])
            && Times(c.packets, q) + Accounted(es, q) == Times(b.packets, q) + if p == q then 1 else 0
  {
    hide Duration, Sorted, TotalDuration, Times;
    var i := Place(b.packets, p.number);
    if |b.packets| < MAX_PACKETS && !(i < |b.packets| && b.packets[i].number == p.number) {
      TotalInsert(b.packets, i, p);
      SortedInsert(b.packets, i, p);
      TimesInsert(b.packets, i, p, q);
    }
  }

  lemma TurnInv(b: Buffer, q: Packet)
    requires b.packets != [] && Sorted(b.packets) && Booked(b)
    ensures var (c, e) := Turn(b);
            && Sorted(c.packets) && Booked(c) && c.init == b.init && c.started == b.started
            && Times(c.packets, q) + Accounted(e, q) == Times(b.packets, q)
  {
    hide Duration, Wrap64, Sorted, ShouldResync, Following;
    SortedTail(b.packets);
  }

  /** Draining empties the buffer, keeps the books and disposes of every packet exactly once. */
  lemma {:induction false} DrainInv(b: Buffer, q: Packet)
    requires Sorted(b.packets) && Booked(b)
    ensures var (r, es) := Drain(b);
            && r.packets == [] && r.duration == 0 && r.init == b.init && r.started == b.started
            && Accounted(es, q) == Times(b.packets, q)
    decreases Rank(b)
  {
    hide Turn, Sorted, Rank;
    if b.packets != [] {
      TurnInv(b, q);
      var (c, e) := Turn(b);
      TurnRank(b);
      DrainInv(c, q);
      AccountedConcat(e, Drain(c).1, q);
    }
  }

  lemma TurnRank(b: Buffer)
    requires b.packets != []
    ensures Rank(Turn(b).0) < Rank(b)
  {
  }

  /** The books balance over one packet, and the invariant holds again. */
  lemma ReceiveInv(b: Buffer, p: Packet, muted: bool, target: int, q: Packet)
    requires Inv(b)
    ensures var (r, es) := Receive(b, p, muted, target);
            && Inv(r)
            && Times(r.packets, q) + Accounted(es, q)
               == Times(b.packets, q) + if p == q && !p.terminator then 1 else 0
  {
    hide Insert, Drain, Duration;
    if !p.terminator && !muted {
      InsertInv(b, p, q);
      var (c, es) := Insert(b, p);
      var d := if !c.init && c.packets != [] then c.(next := c.packets[0].number, init := true) else c;
      if PlaybackReady(d.started, d.duration, target) {
        DrainInv(d.(started := true), q);
        AccountedConcat(es, Drain(d.(started := true)).1, q);
      }
    }
  }

  // ---------------------------------------------------------------- runs

  /** A packet from the stream channel, with the mute switch and the playout delay at that moment. */
  datatype Arrival = Arrival(p: Packet, muted: bool, target: int)

  function Run(b: Buffer, arrivals: seq<Arrival>): (Buffer, seq<Event>)
    decreases |arrivals|
  {
    if arrivals == [] then (b, [])
    else
      var a := arrivals[0];
      var (c, es) := Receive(b, a.p, a.muted, a.target);
      var (r, fs) := Run(c, arrivals[1..]);
      (r, es + fs)
  }

  function Arrived(arrivals: seq<Arrival>, q: Packet): nat {
    if arrivals == [] then 0
    else (if arrivals[0].p == q && !q.terminator then 1 else 0) + Arrived(arrivals[1..], q)
  }

  lemma {:induction false} RunInv(b: Buffer, arrivals: seq<Arrival>, q: Packet)
    requires Inv(b)
    decreases |arrivals|
    ensures var (r, es) := Run(b, arrivals);
            Inv(r) && Times(r.packets, q) + Accounted(es, q) == Times(b.packets, q) + Arrived(arrivals, q)
  {
    hide Inv, Receive;
    if arrivals != [] {
      var a := arrivals[0];
      ReceiveInv(b, a.p, a.muted, a.target, q);
      var (c, es) := Receive(b, a.p, a.muted, a.target);
      RunInv(c, arrivals[1..], q);
      AccountedConcat(es, Run(c, arrivals[1..]).1, q);
    }
  }

  /** Conservation: over any run of a stream, a packet is played, discarded, reset away or still buffered,
      exactly as often as it arrived; in particular, a packet that arrived once meets one of these fates only. */
  lemma Conservation(arrivals: seq<Arrival>, q: Packet)
    ensures var (r, es) := Run(EMPTY, arrivals);
            && Accounted(es, q) + Times(r.packets, q) == Arrived(arrivals, q)
            && Sorted(r.packets) && |r.packets| <= MAX_PACKETS && r.duration == TotalDuration(r.packets)
            && (r.started ==> r.packets == [])
  {
    RunInv(EMPTY, arrivals, q);
  }

  lemma {:induction false} DisposedOnce(es: seq<Event>, i: nat, j: nat, q: Packet)
    requires i < j < |es| && Accounted(es, q) <= 1
    ensures Account(es[i], q) == 0 || Account(es[j], q) == 0
  {
    assert es == es[..j] + es[j..] && es[..j] == es[..i] + es[i..j];
    AccountedConcat(es[..j], es[j..], q);
    AccountedConcat(es[..i], es[i..j], q);
    assert es[i..j][0] == es[i] && es[j..][0] == es[j];
  }

  /** Never both played and discarded, never twice. */
  lemma OneFate(arrivals: seq<Arrival>, q: Packet, i: nat, j: nat)
    requires Arrived(arrivals, q) == 1 && i < j < |Run(EMPTY, arrivals).1|
    ensures var (r, es) := Run(EMPTY, arrivals);
            && (Account(es[i], q) == 0 || Account(es[j], q) == 0)
            && (Account(es[i], q) > 0 ==> q !in r.packets)
  {
    var (r, es) := Run(EMPTY, arrivals);
    RunInv(EMPTY, arrivals, q);
    DisposedOnce(es, i, j, q);
    if Account(es[i], q) > 0 && q in r.packets {
      TimesIn(r.packets, q);
      assert es == es[..i] + es[i..];
      AccountedConcat(es[..i], es[i..], q);
    }
  }

  lemma {:induction false} TimesIn(s: seq<Packet>, q: Packet)
    requires q in s
    ensures Times(s, q) > 0
  {
    if s[0] != q {
      TimesIn(s[1..], q);
    }
  }

  // ---------------------------------------------------------------- playing order

  /** Within one numbering of the sender, packets are played in rising order (up to an int64 overflow). */
  predicate InOrder(last: Option<Packet>, es: seq<Event>)
    decreases |es|
  {
    if es == [] then true
    else match es[0]
      case Played(p) => (last.None? || last.value.number < p.number || Overflows(last.value)) && InOrder(Some(p), es[1..])
      case Resynced => InOrder(None, es[1..])
      case Reset(_) => InOrder(None, es[1..])
      case _ => InOrder(last, es[1..])
  }

  function LastPlayed(last: Option<Packet>, es: seq<Event>): Option<Packet>
    decreases |es|
  {
    if es == [] then last
    else match es[0]
      case Played(p) => LastPlayed(Some(p), es[1..])
      case Resynced => LastPlayed(None, es[1..])
      case Reset(_) => LastPlayed(None, es[1..])
      case _ => LastPlayed(last, es[1..])
  }

  lemma {:induction false} InOrderConcat(last: Option<Packet>, es: seq<Event>, fs: seq<Event>)
    ensures InOrder(last, es + fs) == (InOrder(last, es) && InOrder(LastPlayed(last, es), fs))
    ensures LastPlayed(last, es + fs) == LastPlayed(LastPlayed(last, es), fs)
    decreases |es|
  {
    hide Overflows;
    if es == [] {
      assert es + fs == fs;
    } else {
      assert (es + fs)[1..] == es[1..] + fs && (es + fs)[0] == es[0];
      var next := match es[0]
        case Played(p) => Some(p)
        case Resynced => None
        case Reset(_) => None
        case _ => last;
      InOrderConcat(next, es[1..], fs);
    }
  }

  /** The next expected number lies beyond what was played last. */
  predicate Ahead(b: Buffer, last: Option<Packet>) {
    last.Some? && !Overflows(last.value) ==> b.init && b.next > last.value.number
  }

  lemma TurnOrder(b: Buffer, last: Option<Packet>)
    requires b.packets != [] && b.init && Ahead(b, last)
    ensures var (c, e) := Turn(b);
            c.init && InOrder(last, e) && Ahead(c, LastPlayed(last, e))
  {
    hide Duration, ShouldResync, FrameStep;
    var p := b.packets[0];
    if !Overflows(p) {
      assert Following(p) == p.number + FrameStep(p);
    }
  }

  lemma {:induction false} DrainOrder(b: Buffer, last: Option<Packet>)
    requires b.init && Ahead(b, last)
    ensures var (r, es) := Drain(b);
            r.init && InOrder(last, es) && Ahead(r, LastPlayed(last, es))
    decreases Rank(b)
  {
    hide Turn, Ahead, Rank, InOrder, LastPlayed;
    if b.packets == [] {
      NothingPlayed(last);
    } else {
      TurnOrder(b, last);
      TurnRank(b);
      var (c, e) := Turn(b);
      DrainOrder(c, LastPlayed(last, e));
      InOrderConcat(last, e, Drain(c).1);
    }
  }

  lemma NothingPlayed(last: Option<Packet>)
    ensures InOrder(last, []) && LastPlayed(last, []) == last
  {
  }

  lemma ReceiveOrder(b: Buffer, last: Option<Packet>, p: Packet, muted: bool, target: int)
    requires Inv(b) && Ahead(b, last)
    ensures var (r, es) := Receive(b, p, muted, target);
            InOrder(last, es) && Ahead(r, LastPlayed(last, es))
  {
    hide Drain, Duration, Sorted;
    if !p.terminator && !muted {
      InsertInv(b, p, p);
      var (c, es) := Insert(b, p);
      assert InOrder(last, es) && LastPlayed(last, es) == last;
      var d := if !c.init && c.packets != [] then c.(next := c.packets[0].number, init := true) else c;
      assert d.init;
      if PlaybackReady(d.started, d.duration, target) {
        DrainOrder(d.(started := true), last);
        InOrderConcat(last, es, Drain(d.(started := true)).1);
      }
    }
  }

  lemma {:induction false} RunOrder(b: Buffer, last: Option<Packet>, arrivals: seq<Arrival>)
    requires Inv(b) && Ahead(b, last)
    ensures InOrder(last, Run(b, arrivals).1)
    decreases |arrivals|
  {
    hide Inv, Receive, Ahead, InOrder, LastPlayed;
    NothingPlayed(last);
    if arrivals != [] {
      var a := arrivals[0];
      ReceiveInv(b, a.p, a.muted, a.target, a.p);
      ReceiveOrder(b, last, a.p, a.muted, a.target);
      var (c, es) := Receive(b, a.p, a.muted, a.target);
      RunOrder(c, LastPlayed(last, es), arrivals[1..]);
      InOrderConcat(last, es, Run(c, arrivals[1..]).1);
    }
  }

  ghost predicate SameEpoch(es: seq<Event>, i: nat, j: nat) {
    && i < j < |es| && es[i].Played? && es[j].Played?
    && forall k | i <= k < j :: es[k] != Resynced && !es[k].Reset? && (es[k].Played? ==> !Overflows(es[k].p))
  }

  lemma {:induction false} InOrderMeans(last: Option<Packet>, es: seq<Event>, j: nat)
    requires InOrder(last, es) && j < |es| && es[j].Played?
    requires last.Some? && !Overflows(last.value)
    requires forall k | 0 <= k < j :: es[k] != Resynced && !es[k].Reset? && (es[k].Played? ==> !Overflows(es[k].p))
    ensures last.value.number < es[j].p.number
    decreases |es|
  {
    hide Overflows;
    if j > 0 {
      InOrderMeans(if es[0].Played? then Some(es[0].p) else last, es[1..], j - 1);
    }
  }

  /** Frame numbers played between two resets or resyncs strictly increase as long as none of them overflows. */
  lemma EpochInOrder(arrivals: seq<Arrival>, i: nat, j: nat)
    requires SameEpoch(Run(EMPTY, arrivals).1, i, j)
    ensures var es := Run(EMPTY, arrivals).1;
            es[i].p.number < es[j].p.number
  {
    hide Run, InOrder;
    var es := Run(EMPTY, arrivals).1;
    RunOrder(EMPTY, None, arrivals);
    assert es == es[..i] + es[i..];
    InOrderConcat(None, es[..i], es[i..]);
    var last := LastPlayed(None, es[..i]);
    PlayedFirst(last, es[i..]);
    assert es[i..][1..] == es[i + 1..] && es[i + 1..][j - i - 1] == es[j];
    var rest := es[i + 1..];
    forall k | 0 <= k < j - i - 1
      ensures rest[k] != Resynced && !rest[k].Reset? && (rest[k].Played? ==> !Overflows(rest[k].p))
    {
      assert rest[k] == es[i + 1 + k];
    }
    InOrderMeans(Some(es[i].p), rest, j - i - 1);
  }

  lemma PlayedFirst(last: Option<Packet>, es: seq<Event>)
    requires es != [] && es[0].Played? && InOrder(last, es)
    ensures InOrder(Some(es[0].p), es[1..])
  {
  }

  // ---------------------------------------------------------------- one packet at a time

  ghost predicate OneEpoch(es: seq<Event>, i: nat, j: nat) {
    && i < j < |es| && es[i].Played? && es[j].Played?
    && forall k | i < k < j :: es[k] != Resynced && !es[k].Reset?
  }

  /** No packet of the stream has a number so high that the next one overflows int64. */
  predicate NoneOverflows(arrivals: seq<Arrival>) {
    forall i | 0 <= i < |arrivals| :: arrivals[i].p.terminator || !Overflows(arrivals[i].p)
  }

  lemma {:induction false} AccountedAt(es: seq<Event>, k: nat, q: Packet)
    requires k < |es|
    ensures Accounted(es, q) >= Account(es[k], q)
  {
    if k > 0 {
      AccountedAt(es[1..], k - 1, q);
    }
  }

  lemma {:induction false} ArrivedSometime(arrivals: seq<Arrival>, q: Packet) returns (i: nat)
    requires Arrived(arrivals, q) > 0
    ensures i < |arrivals| && arrivals[i].p == q && !q.terminator
  {
    if arrivals[0].p == q && !q.terminator {
      i := 0;
    } else {
      i := ArrivedSometime(arrivals[1..], q);
      i := i + 1;
    }
  }

  lemma PlayedPacketsArrived(arrivals: seq<Arrival>, k: nat)
    requires k < |Run(EMPTY, arrivals).1| && Run(EMPTY, arrivals).1[k].Played? && NoneOverflows(arrivals)
    ensures !Overflows(Run(EMPTY, arrivals).1[k].p)
  {
    hide Run, Overflows;
    var q := Run(EMPTY, arrivals).1[k].p;
    Conservation(arrivals, q);
    AccountedAt(Run(EMPTY, arrivals).1, k, q);
    var i := ArrivedSometime(arrivals, q);
  }

  /** In a stream without overflowing numbers, frame numbers played between two resets or resyncs strictly increase. */
  lemma PlaysInOrder(arrivals: seq<Arrival>, i: nat, j: nat)
    requires NoneOverflows(arrivals) && OneEpoch(Run(EMPTY, arrivals).1, i, j)
    ensures Run(EMPTY, arrivals).1[i].p.number < Run(EMPTY, arrivals).1[j].p.number
  {
    hide Run, Overflows;
    var es := Run(EMPTY, arrivals).1;
    forall k | i <= k < j
      ensures es[k] != Resynced && !es[k].Reset? && (es[k].Played? ==> !Overflows(es[k].p))
    {
      if es[k].Played? {
        PlayedPacketsArrived(arrivals, k);
      }
    }
    EpochInOrder(arrivals, i, j);
  }

  /** A started buffer drops a packet that is late, unless the run of late packets amounts to a restart. */
  predicate Dropped(b: Buffer, p: Packet) {
    p.number < b.next && !ShouldResync(b.lateRun + 1, Wrap64(b.next - p.number))
  }

  /** A packet that is played announces a restart first, if it lies below the expected number. */
  function PlayEvents(b: Buffer, p: Packet): seq<Event> {
    if p.number < b.next then [Resynced, Played(p)] else [Played(p)]
  }

  lemma DrainOne(b: Buffer, p: Packet)
    requires b.packets == [p]
    ensures Drain(b) ==
              if Dropped(b, p) then (Pop(b).(lateRun := b.lateRun + 1), [Late(p)])
              else (Pop(b).(next := Following(p), lateRun := 0), PlayEvents(b, p))
  {
    hide Duration, Following, ShouldResync, Wrap64;
    var (c, e) := Turn(b);
    if c.packets == [] {
      assert e + Drain(c).1 == e;
    } else {
      var (d, f) := Turn(c);
      assert d.packets == [] && f == [Played(p)];
      assert Drain(c) == (d, f + Drain(d).1) && f + Drain(d).1 == f;
      assert e + f == PlayEvents(b, p);
    }
  }

  /** What a started buffer does with one unmuted packet: drop it, or play it at once. */
  lemma StartedStep(b: Buffer, p: Packet, target: int)
    requires Inv(b) && b.started && !p.terminator
    ensures Receive(b, p, false, target) ==
              if Dropped(b, p) then (b.(lateRun := b.lateRun + 1), [Late(p)])
              else (b.(next := Following(p), lateRun := 0), PlayEvents(b, p))
  {
    hide Duration, Following, ShouldResync, Wrap64;
    assert Place([], p.number) == 0;
    var c := b.(packets := [p], duration := Duration(p));
    assert b.packets[..0] + [p] + b.packets[0..] == [p];
    assert Insert(b, p) == (c, []);
    DrainOne(c, p);
    assert Pop(c).packets == [];
    assert [] + Drain(c).1 == Drain(c).1;
  }

  // ---------------------------------------------------------------- where the order breaks

  /** A first packet is played at once if there is no playout delay. */
  lemma FirstStep(p: Packet)
    requires !p.terminator
    ensures Receive(EMPTY, p, false, 0) == (EMPTY.(next := Following(p), init := true, started := true), [Played(p)])
  {
    hide Following, ShouldResync, Wrap64;
    var c := EMPTY.(packets := [p], duration := Duration(p));
    assert Insert(EMPTY, p) == (c, []) by {
      assert [] + [p] + [] == [p];
    }
    var d := c.(next := p.number, init := true, started := true);
    DrainOne(d, p);
    assert Pop(d).packets == [] && PlayEvents(d, p) == [Played(p)];
    assert [] + Drain(d).1 == Drain(d).1;
  }

  lemma RunOne(b: Buffer, a: Arrival)
    ensures Run(b, [a]) == Receive(b, a.p, a.muted, a.target)
  {
    hide Receive;
    var (c, es) := Receive(b, a.p, a.muted, a.target);
    assert [a][1..] == [] && es + [] == es;
  }

  lemma RunTwo(b: Buffer, a1: Arrival, a2: Arrival)
    ensures var (c, es) := Receive(b, a1.p, a1.muted, a1.target);
            var (d, fs) := Receive(c, a2.p, a2.muted, a2.target);
            Run(b, [a1, a2]) == (d, es + fs)
  {
    hide Receive;
    var (c, es) := Receive(b, a1.p, a1.muted, a1.target);
    assert [a1, a2][1..] == [a2];
    RunOne(c, a2);
  }

  lemma OverflowFallsBack(p: Packet)
    requires Overflows(p) && p.samples < TWO_63
    ensures Following(p) < p.number
  {
    assert FrameStep(p) < TWO_63;
  }

  /** Every packet whose number overflows breaks the order: the number expected next is a lower one, and a packet with
      that number is played. */
  lemma OverflowBreaksOrder(p: Packet)
    requires Overflows(p) && !p.terminator && p.samples < TWO_63
    ensures var q := Packet(p.id + 1, Following(p), p.samples, false);
            && q.number < p.number
            && Run(EMPTY, [Arrival(p, false, 0), Arrival(q, false, 0)]).1 == [Played(p), Played(q)]
  {
    hide Receive, Following, Duration, Overflows, ShouldResync, Wrap64;
    var q := Packet(p.id + 1, Following(p), p.samples, false);
    OverflowFallsBack(p);
    FirstStep(p);
    var b := EMPTY.(next := Following(p), init := true, started := true);
    StartedStep(b, q, 0);
    assert PlayEvents(b, q) == [Played(q)];
    RunTwo(EMPTY, Arrival(p, false, 0), Arrival(q, false, 0));
    assert [Played(p)] + [Played(q)] == [Played(p), Played(q)];
  }

  ghost predicate PlaysNext(es: seq<Event>, i: nat, j: nat) {
    OneEpoch(es, i, j) && forall k | i < k < j :: !es[k].Played?
  }

  /** Whatever the stream, the packet played next after `p`, before any reset or resync, has a higher number. */
  ghost predicate KeepsOrder(p: Packet) {
    forall arrivals: seq<Arrival>, i: nat, j: nat
      | PlaysNext(Run(EMPTY, arrivals).1, i, j) && Run(EMPTY, arrivals).1[i] == Played(p) ::
      p.number < Run(EMPTY, arrivals).1[j].p.number
  }

  /** Playing a packet keeps the order, in every stream, exactly when its number does not overflow. */
  lemma KeepsOrderExactly(p: Packet)
    requires !p.terminator && p.samples < TWO_63
    ensures KeepsOrder(p) <==> !Overflows(p)
  {
    hide Run, Overflows, Following;
    if Overflows(p) {
      OverflowBreaksOrder(p);
      var q := Packet(p.id + 1, Following(p), p.samples, false);
      var arrivals := [Arrival(p, false, 0), Arrival(q, false, 0)];
      assert PlaysNext(Run(EMPTY, arrivals).1, 0, 1);
    } else {
      forall arrivals: seq<Arrival>, i: nat, j: nat
        | PlaysNext(Run(EMPTY, arrivals).1, i, j) && Run(EMPTY, arrivals).1[i] == Played(p)
        ensures p.number < Run(EMPTY, arrivals).1[j].p.number
      {
        EpochInOrder(arrivals, i, j);
      }
    }
  }

  // ---------------------------------------------------------------- recovery after a restart

  /** Unmuted packets with strictly rising frame numbers. */
  ghost predicate Rising(ps: seq<Packet>) {
    && (forall i | 0 <= i < |ps| :: !ps[i].terminator)
    && Sorted(ps)
  }

  function Unmuted(ps: seq<Packet>, target: int): seq<Arrival> {
    if ps == [] then [] else [Arrival(ps[0], false, target)] + Unmuted(ps[1..], target)
  }

  predicate PlaysNone(es: seq<Event>) {
    forall i | 0 <= i < |es| :: !es[i].Played?
  }

  /** The i-th packet would be dropped, all packets before it having been dropped. */
  predicate DroppedAt(b: Buffer, ps: seq<Packet>, i: nat)
    requires i < |ps|
  {
    ps[i].number < b.next && !ShouldResync(b.lateRun + i + 1, Wrap64(b.next - ps[i].number))
  }

  predicate DroppedAll(b: Buffer, ps: seq<Packet>) {
    forall i | 0 <= i < |ps| :: DroppedAt(b, ps, i)
  }

  lemma DroppedStep(b: Buffer, ps: seq<Packet>)
    requires ps != []
    ensures DroppedAll(b, ps) <==> Dropped(b, ps[0]) && DroppedAll(b.(lateRun := b.lateRun + 1), ps[1..])
  {
    hide ShouldResync, Wrap64;
    var c := b.(lateRun := b.lateRun + 1);
    assert Dropped(b, ps[0]) == DroppedAt(b, ps, 0);
    assert forall i | 0 < i < |ps| :: DroppedAt(b, ps, i) == DroppedAt(c, ps[1..], i - 1);
    assert forall i | 0 <= i < |ps[1..]| :: DroppedAt(c, ps[1..], i) == DroppedAt(b, ps, i + 1);
  }

  lemma PlaysNoneConcat(es: seq<Event>, fs: seq<Event>)
    ensures PlaysNone(es + fs) <==> PlaysNone(es) && PlaysNone(fs)
  {
    assert forall i | 0 <= i < |es| :: (es + fs)[i] == es[i];
    assert forall i | 0 <= i < |fs| :: (es + fs)[i + |es|] == fs[i];
  }

  lemma PlayIsSeen(b: Buffer, p: Packet)
    ensures !PlaysNone(PlayEvents(b, p)) && PlaysNone([Late(p)])
  {
    var es := PlayEvents(b, p);
    assert es[|es| - 1].Played?;
  }

  lemma {:induction false} AllDropped(b: Buffer, ps: seq<Packet>, target: int)
    requires Inv(b) && b.started && Rising(ps)
    ensures PlaysNone(Run(b, Unmuted(ps, target)).1) <==> DroppedAll(b, ps)
    decreases |ps|
  {
    hide Receive, Following, ShouldResync, Wrap64, Duration, Dropped, DroppedAll, PlaysNone, PlayEvents;
    if ps == [] {
      NothingDropped(b);
    } else {
      var p, rest := ps[0], ps[1..];
      StartedStep(b, p, target);
      var (c, es) := Receive(b, p, false, target);
      var tail := Unmuted(rest, target);
      assert Unmuted(ps, target)[1..] == tail && Unmuted(ps, target)[0] == Arrival(p, false, target);
      PlaysNoneConcat(es, Run(c, tail).1);
      PlayIsSeen(b, p);
      DroppedStep(b, ps);
      if Dropped(b, p) {
        AllDropped(c, rest, target);
      }
    }
  }

  lemma NothingDropped(b: Buffer)
    ensures PlaysNone([]) && DroppedAll(b, [])
  {
  }

  const WORST := 103

  /** Does every rising stream that starts at frame number `s` get a packet played among its first 104? */
  ghost predicate Recovers(b: Buffer, s: Int64, target: int) {
    forall ps: seq<Packet> | Rising(ps) && |ps| == WORST + 1 && ps[0].number == s ::
      !PlaysNone(Run(b, Unmuted(ps, target)).1)
  }

  lemma {:induction false} RisesBy(ps: seq<Packet>, i: nat, j: nat)
    requires Rising(ps) && i <= j < |ps|
    ensures ps[j].number - ps[i].number >= j - i
  {
    if i < j {
      RisesBy(ps, i, j - 1);
    }
  }

  lemma NotAllDropped(b: Buffer, ps: seq<Packet>)
    requires Rising(ps) && |ps| == WORST + 1 && b.next - ps[0].number <= TWO_63 + 3
    ensures !DroppedAll(b, ps)
  {
    RisesBy(ps, 0, 4);
    RisesBy(ps, 4, WORST);
    assert !DroppedAt(b, ps, 4) || !DroppedAt(b, ps, WORST);
  }

  // `head` numbers from `s` upward, then the 99 numbers just below `next`.
  function WorstStream(s: Int64, head: nat, next: Int64): (ps: seq<Packet>)
    requires s + head <= next - 99
    ensures |ps| == head + 99
    ensures forall i | 0 <= i < |ps| ::
              ps[i].number == (if i < head then s + i else next - 99 + (i - head)) && !ps[i].terminator
  {
    seq(head + 99, i requires 0 <= i < head + 99 =>
      Packet(i, if i < head then s + i else next - 99 + (i - head), 960, false))
  }

  lemma WorstAt(b: Buffer, s: Int64, head: nat, i: nat)
    requires s + head <= b.next - 99 && i < head + 99
    requires (head <= 4 && b.lateRun == 0) || (head == 5 && b.next - s > TWO_63 + 3)
    ensures DroppedAt(b, WorstStream(s, head, b.next), i)
  {
    if i >= head {
      assert Wrap64(b.next - (b.next - 99 + (i - head))) == 99 - (i - head);
    } else if head == 5 {
      var back := b.next - (s + i);
      assert Wrap64(back) == back - 2 * TWO_63;
    }
  }

  lemma WorstIsDropped(b: Buffer, s: Int64, head: nat)
    requires s + head <= b.next - 99
    requires (head <= 4 && b.lateRun == 0) || (head == 5 && b.next - s > TWO_63 + 3)
    ensures Rising(WorstStream(s, head, b.next)) && DroppedAll(b, WorstStream(s, head, b.next))
  {
    hide DroppedAt, Wrap64;
    var ps := WorstStream(s, head, b.next);
    forall i | 0 <= i < |ps|
      ensures DroppedAt(b, ps, i)
    {
      WorstAt(b, s, head, i);
    }
  }

  /** The recovery bound, exactly: whatever the state between packets, at most 103 packets of a rising stream
      are lost before one is played, if and only if the restart is not more than 2^63 + 3 below the expected number. */
  lemma RecoversExactly(b: Buffer, s: Int64, target: int)
    requires Inv(b) && b.started
    ensures Recovers(b, s, target) <==> b.next - s <= TWO_63 + 3
  {
    if b.next - s <= TWO_63 + 3 {
      RecoversSoon(b, s, target);
    } else {
      WorstIsDropped(b, s, 5);
      AllDropped(b, WorstStream(s, 5, b.next), target);
    }
  }

  /** The half of it that bounds the loss. */
  lemma RecoversSoon(b: Buffer, s: Int64, target: int)
    requires Inv(b) && b.started && b.next - s <= TWO_63 + 3
    ensures Recovers(b, s, target)
  {
    hide Run, DroppedAll, PlaysNone;
    forall ps: seq<Packet> | Rising(ps) && |ps| == WORST + 1 && ps[0].number == s
      ensures !PlaysNone(Run(b, Unmuted(ps, target)).1)
    {
      AllDropped(b, ps, target);
      NotAllDropped(b, ps);
    }
  }

  /** The bound is reached: from any number at least 103 below the expected one, some rising stream loses 103 packets. */
  lemma BoundIsReached(b: Buffer, s: Int64, target: int)
    requires Inv(b) && b.started && b.lateRun == 0 && s + WORST <= b.next
    ensures exists ps: seq<Packet> :: Rising(ps) && |ps| == WORST && ps[0].number == s
              && PlaysNone(Run(b, Unmuted(ps, target)).1)
  {
    WorstIsDropped(b, s, 4);
    AllDropped(b, WorstStream(s, 4, b.next), target);
  }

  // ---------------------------------------------------------------- before playback starts

  /** An arrival that does not make an unstarted buffer of this duration start. */
  predicate Waits(a: Arrival, duration: int) {
    a.muted || duration < a.target
  }

  /** A full buffer starts on an arrival exactly when the playout delay is met by what it already holds. */
  lemma FullBufferStep(b: Buffer, a: Arrival)
    requires Inv(b) && !b.started && |b.packets| == MAX_PACKETS && !a.p.terminator
    ensures var (r, es) := Receive(b, a.p, a.muted, a.target);
            && (r.started <==> !Waits(a, b.duration))
            && (Waits(a, b.duration) ==> r == b && es == [if a.muted then Muted(a.p) else Full(a.p)])
  {
    hide Duration, Drain;
    if !Waits(a, b.duration) {
      DrainKeepsStarted(b.(started := true));
    }
  }

  lemma {:induction false} DrainKeepsStarted(b: Buffer)
    ensures Drain(b).0.started == b.started
    decreases Rank(b)
  {
    hide Duration, Following, ShouldResync, Wrap64;
    if b.packets != [] {
      TurnRank(b);
      DrainKeepsStarted(Turn(b).0);
    }
  }

  lemma ReceiveKeepsStarted(b: Buffer, a: Arrival)
    requires b.started && !a.p.terminator
    ensures Receive(b, a.p, a.muted, a.target).0.started
  {
    hide Duration, Drain;
    if !a.muted {
      var c := Insert(b, a.p).0;
      DrainKeepsStarted(c);
      DrainKeepsStarted(c.(next := if c.packets != [] then c.packets[0].number else c.next, init := true));
    }
  }

  lemma {:induction false} RunKeepsStarted(b: Buffer, arrivals: seq<Arrival>)
    requires b.started && forall i | 0 <= i < |arrivals| :: !arrivals[i].p.terminator
    ensures Run(b, arrivals).0.started
    decreases |arrivals|
  {
    hide Receive;
    if arrivals != [] {
      var a := arrivals[0];
      ReceiveKeepsStarted(b, a);
      RunKeepsStarted(Receive(b, a.p, a.muted, a.target).0, arrivals[1..]);
    }
  }

  ghost predicate AllWait(arrivals: seq<Arrival>, duration: int) {
    forall i | 0 <= i < |arrivals| :: Waits(arrivals[i], duration)
  }

  lemma AllWaitTail(arrivals: seq<Arrival>, duration: int)
    requires arrivals != []
    ensures AllWait(arrivals, duration) <==> Waits(arrivals[0], duration) && AllWait(arrivals[1..], duration)
  {
    hide Waits;
    assert forall i | 0 < i < |arrivals| :: arrivals[i] == arrivals[1..][i - 1];
  }

  /** Until a terminator arrives, a full buffer that has not started stays as it is, and plays nothing, exactly as long
      as every packet finds it muted or shorter than the playout delay; otherwise it starts. */
  lemma {:induction false} FullBufferStalls(b: Buffer, arrivals: seq<Arrival>)
    requires Inv(b) && !b.started && |b.packets| == MAX_PACKETS
    requires forall i | 0 <= i < |arrivals| :: !arrivals[i].p.terminator
    ensures Run(b, arrivals).0 == b <==> AllWait(arrivals, b.duration)
    ensures Run(b, arrivals).0.started <==> !AllWait(arrivals, b.duration)
    ensures AllWait(arrivals, b.duration) ==> PlaysNone(Run(b, arrivals).1)
    decreases |arrivals|
  {
    hide Receive, Inv, Waits, AllWait, PlaysNone;
    if arrivals == [] {
      NobodyWaits(b.duration);
    } else {
      var a := arrivals[0];
      FullBufferStep(b, a);
      AllWaitTail(arrivals, b.duration);
      var (c, es) := Receive(b, a.p, a.muted, a.target);
      if Waits(a, b.duration) {
        FullBufferStalls(b, arrivals[1..]);
        NotPlayed(a);
        PlaysNoneConcat(es, Run(b, arrivals[1..]).1);
      } else {
        RunKeepsStarted(c, arrivals[1..]);
      }
    }
  }

  lemma NobodyWaits(duration: int)
    ensures AllWait([], duration) && PlaysNone([])
  {
  }

  lemma NotPlayed(a: Arrival)
    ensures PlaysNone([if a.muted then Muted(a.p) else Full(a.p)])
  {
  }

  // ---------------------------------------------------------------- a stream that stalls

  /** The k-th packet of 10 ms of stereo. */
  function Short(k: nat): Packet
    requires k < MAX_PACKETS
  {
    Packet(k, k, 2 * FRAME_SIZE, false)
  }

  function ShortOnes(k: nat): (s: seq<Packet>)
    requires k <= MAX_PACKETS
    ensures |s| == k && forall i | 0 <= i < k :: s[i] == Short(i)
  {
    seq(k, i requires 0 <= i < k => Short(i))
  }

  const SHORT := 10_000_000

  function Filled(k: nat): Buffer
    requires k <= MAX_PACKETS
  {
    Buffer(ShortOnes(k), k * SHORT, 0, k > 0, false, 0)
  }

  function Fill(k: nat, target: int): seq<Arrival>
    requires k <= MAX_PACKETS
    decreases MAX_PACKETS - k
  {
    if k == MAX_PACKETS then [] else [Arrival(Short(k), false, target)] + Fill(k + 1, target)
  }

  lemma FillStep(k: nat, target: int)
    requires k < MAX_PACKETS && target > MAX_PACKETS * SHORT
    ensures Receive(Filled(k), Short(k), false, target) == (Filled(k + 1), [])
  {
    var p, s := Short(k), ShortOnes(k);
    assert Duration(p) == SHORT;
    assert Place(s, k) == k;
    assert s[..k] + [p] + s[k..] == ShortOnes(k + 1);
    hide Drain, Duration, Place;
  }

  lemma {:induction false} FillRun(k: nat, target: int)
    requires k <= MAX_PACKETS && target > MAX_PACKETS * SHORT
    ensures Run(Filled(k), Fill(k, target)) == (Filled(MAX_PACKETS), [])
    decreases MAX_PACKETS - k
  {
    hide Receive, Filled;
    if k < MAX_PACKETS {
      FillStep(k, target);
      FillRun(k + 1, target);
      var a := Arrival(Short(k), false, target);
      assert Fill(k, target) == [a] + Fill(k + 1, target) && Fill(k, target)[1..] == Fill(k + 1, target);
      var none: seq<Event> := [];
      assert none + none == none;
    }
  }

  /** Fifty packets of 10 ms under a playout delay of more than half a second bring about such a buffer. */
  lemma StallIsReached(target: int)
    requires target > MAX_PACKETS * SHORT
    ensures var (b, es) := Run(EMPTY, Fill(0, target));
            Inv(b) && !b.started && |b.packets| == MAX_PACKETS && b.duration < target && es == []
  {
    hide Run, Fill;
    assert Filled(0) == EMPTY by {
      assert ShortOnes(0) == [];
    }
    FillRun(0, target);
    RunInv(EMPTY, Fill(0, target), Short(0));
  }

  // ---------------------------------------------------------------- closing the stream

  /** Closing plays everything that is buffered, in order, each packet once. */
  lemma {:induction false} CloseConserves(b: Buffer, i: nat)
    ensures var (r, es) := Close(b);
            && r.packets == [] && |es| == |b.packets|
            && (i < |es| ==> es[i] == Played(b.packets[i]))
    decreases |b.packets|
  {
    hide Duration, Following;
    if b.packets != [] {
      CloseConserves(Pop(b).(next := Following(b.packets[0])), if i > 0 then i - 1 else 0);
    }
  }

  // ---------------------------------------------------------------- the code

  /** The variables of OnAudioStream's goroutine. `log` records what became of the packets. */
  class JitterBuffer {
    var packets: seq<Packet>
    var duration: int
    var next: Int64
    var init: bool
    var started: bool
    var lateRun: nat
    ghost var log: seq<Event>

    constructor ()
      ensures State() == EMPTY && log == []
    {
      packets, duration, next, init, started, lateRun := [], 0, 0, false, false, 0;
      log := [];
    }

    ghost function State(): Buffer
      reads this
    {
      Buffer(packets, duration, next, init, started, lateRun)
    }

    method ResetJitter()
      modifies this
      ensures State() == EMPTY && log == old(log) + [Reset(old(packets))]
    {
      log := log + [Reset(packets)];
      packets, duration, next, init, started, lateRun := [], 0, 0, false, false, 0;
    }

    method InsertSorted(p: Packet)
      modifies this
      ensures State() == Insert(old(State()), p).0
      ensures log == old(log) + Insert(old(State()), p).1
    {
      if |packets| >= MAX_PACKETS {
        log := log + [Full(p)];
        return;
      }
      var i := 0;
      while i < |packets| && packets[i].number < p.number
        invariant i <= |packets| && Place(packets, p.number) == i + Place(packets[i..], p.number)
      {
        assert packets[i..][1..] == packets[i + 1..];
        i := i + 1;
      }
      assert i == Place(packets, p.number);
      if i < |packets| && packets[i].number == p.number {
        log := log + [Duplicate(p)];
        return;
      }
      packets := packets[..i] + [p] + packets[i..];
      duration := duration + Duration(p);
      assert log == old(log) + [];
    }

    /** The packet with the expected number, if it is first in the buffer. */
    method PopNext() returns (r: Option<Packet>)
      modifies this
      ensures old(packets) == [] || old(packets)[0].number != old(next) ==> r == None && State() == old(State())
      ensures old(packets) != [] && old(packets)[0].number == old(next) ==>
                r == Some(old(packets)[0]) && State() == Pop(old(State())).(next := Following(old(packets)[0]))
      ensures log == old(log)
    {
      if |packets| == 0 || packets[0].number != next {
        return None;
      }
      var p := packets[0];
      packets := packets[1..];
      duration := duration - Duration(p);
      if p.samples > FRAME_SIZE && p.samples % 2 == 0 {
        var step := p.samples / 2 / FRAME_SIZE;
        next := Wrap64(p.number + if step >= 1 then step else 1);
      } else {
        var step := p.samples / FRAME_SIZE;
        next := Wrap64(p.number + if step >= 1 then step else 1);
      }
      return Some(p);
    }

    /** One turn of the drain loop; false when the buffer is empty. */
    method DrainTurn() returns (more: bool)
      modifies this
      ensures more == (old(packets) != [])
      ensures !more ==> State() == old(State()) && log == old(log)
      ensures more ==> State() == Turn(old(State())).0 && log == old(log) + Turn(old(State())).1
    {
      hide Duration, Following, ShouldResync, Wrap64;
      var pkt := PopNext();
      if pkt == None {
        if |packets| == 0 {
          return false;
        }
        if packets[0].number < next {
          lateRun := lateRun + 1;
          if ShouldResync(lateRun, Wrap64(next - packets[0].number)) {
            next := packets[0].number;
            lateRun := 0;
            log := log + [Resynced];
          } else {
            log := log + [Late(packets[0])];
            duration := duration - Duration(packets[0]);
            packets := packets[1..];
          }
        } else {
          next := packets[0].number;
          assert log == log + [];
        }
      } else {
        lateRun := 0;
        log := log + [Played(pkt.value)];
      }
      return true;
    }

    /** The drain loop. It ends because every turn pops a packet or lets the next turn pop one. */
    method DrainReady()
      modifies this
      ensures State() == Drain(old(State())).0
      ensures log == old(log) + Drain(old(State())).1
    {
      hide Turn, Rank, Drain;
      ghost var b0, log0 := State(), log;
      ResumeNow(b0, log0);
      var more := true;
      while more
        invariant more ==> Resumes(b0, log0, State(), log)
        invariant !more ==> State() == Drain(b0).0 && log == log0 + Drain(b0).1
        decreases more, Rank(State())
      {
        ResumeTurn(b0, log0, State(), log);
        if packets != [] {
          TurnRank(State());
        }
        more := DrainTurn();
      }
    }

    /** One packet from the stream channel. */
    method OnPacket(p: Packet, muted: bool, target: int)
      requires Inv(State())
      modifies this
      ensures Inv(State())
      ensures State() == Receive(old(State()), p, muted, target).0
      ensures log == old(log) + Receive(old(State()), p, muted, target).1
    {
      hide Drain, Duration, Inv, Insert;
      ghost var b0, log0 := State(), log;
      ReceiveInv(b0, p, muted, target, p);
      if p.terminator {
        ResetJitter();
        return;
      }
      if muted {
        log := log + [Muted(p)];
        return;
      }
      InsertKeeps(b0, p);
      InsertSorted(p);
      if !init {
        next := packets[0].number;
        init := true;
      }
      if !PlaybackReady(started, duration, target) {
        return;
      }
      started := true;
      DrainReady();
      assert log == log0 + Receive(b0, p, muted, target).1;
    }

    /** The channel was closed: play what is left. */
    method CloseDrain()
      modifies this
      ensures State() == Close(old(State())).0
      ensures log == old(log) + Close(old(State())).1
    {
      hide Duration, Following, Close;
      ghost var b0, log0 := State(), log;
      CloseNow(b0, log0);
      while |packets| > 0
        invariant ClosesTo(b0, log0, State(), log)
        decreases |packets|
      {
        CloseTurn(b0, log0, State(), log);
        var first := packets[0];
        var pkt := PopNext();
        if pkt == None {
          next := packets[0].number;
          pkt := PopNext();
        }
        log := log + [Played(pkt.value)];
      }
      CloseEnd(b0, log0, State(), log);
    }
  }

  // The rest of a loop completes what it has done so far to the whole.

  ghost predicate Resumes(b0: Buffer, log0: seq<Event>, b: Buffer, log: seq<Event>) {
    Drain(b0).0 == Drain(b).0 && log0 + Drain(b0).1 == log + Drain(b).1
  }

  lemma ResumeNow(b0: Buffer, log0: seq<Event>)
    ensures Resumes(b0, log0, b0, log0)
  {
  }

  lemma ResumeTurn(b0: Buffer, log0: seq<Event>, b: Buffer, log: seq<Event>)
    requires Resumes(b0, log0, b, log)
    ensures b.packets == [] ==> b == Drain(b0).0 && log == log0 + Drain(b0).1
    ensures b.packets != [] ==> Resumes(b0, log0, Turn(b).0, log + Turn(b).1)
  {
    hide Turn;
    if b.packets == [] {
      assert log + [] == log;
    } else {
      var (c, e) := Turn(b);
      assert log + (e + Drain(c).1) == (log + e) + Drain(c).1;
    }
  }

  ghost predicate ClosesTo(b0: Buffer, log0: seq<Event>, b: Buffer, log: seq<Event>) {
    Close(b0).0 == Close(b).0 && log0 + Close(b0).1 == log + Close(b).1
  }

  lemma CloseNow(b0: Buffer, log0: seq<Event>)
    ensures ClosesTo(b0, log0, b0, log0)
  {
  }

  lemma CloseTurn(b0: Buffer, log0: seq<Event>, b: Buffer, log: seq<Event>)
    requires ClosesTo(b0, log0, b, log) && b.packets != []
    ensures ClosesTo(b0, log0, Pop(b).(next := Following(b.packets[0])), log + [Played(b.packets[0])])
  {
    hide Following, Duration;
    var p := b.packets[0];
    var es := Close(Pop(b).(next := Following(p))).1;
    assert log + ([Played(p)] + es) == (log + [Played(p)]) + es;
  }

  lemma CloseEnd(b0: Buffer, log0: seq<Event>, b: Buffer, log: seq<Event>)
    requires ClosesTo(b0, log0, b, log) && b.packets == []
    ensures b == Close(b0).0 && log == log0 + Close(b0).1
  {
    assert log + [] == log;
  }

  lemma InsertKeeps(b: Buffer, p: Packet)
    requires Inv(b)
    ensures var c := Insert(b, p).0;
            c == b.(packets := c.packets, duration := c.duration) && c.packets != []
  {
    InsertInv(b, p, p);
  }
}
