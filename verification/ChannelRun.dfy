/** What one sender and one receiver achieve over a network that loses, reorders, duplicates and injects packets. */
module ChannelRun {
  import opened Blocks
  import opened Iv
  import opened Ocb15
  import opened Crypt15

  // ---------------------------------------------------------------- which counter is tried

  function Forward(d: nat, s: nat): nat
    requires d < IV_SPACE && s < IV_SPACE
  {
    if s >= d then s - d else s + IV_SPACE - d
  }

  predicate Late(d: nat, s: nat) {
    s < d <= s + 29 && d - s <= d % 256
  }

  /** Counters the receiver at `d` reconstructs from their low byte. */
  predicate InWindow(d: nat, s: nat)
    requires d < IV_SPACE && s < IV_SPACE
  {
    || 1 <= Forward(d, s) <= 127
    || (Forward(d, s) == 128 && d % 256 < 128)
    || Late(d, s)
  }

  /** A packet is tried under the counter it was sealed with exactly when that counter is in the window. */
  lemma TriesExactly(d: nat, s: nat)
    requires d < IV_SPACE && s < IV_SPACE
    ensures var a := AttemptIV(d, s % 256);
            && ((a.Try? && a.iv == s) <==> InWindow(d, s))
            && (InWindow(d, s) ==> a.restore == Late(d, s) && a.checked == (Forward(d, s) != 1))
  {
    hide Signed, AttemptIV;
    var low, b := d % 256, s % 256;
    var a := AttemptIV(d, b);
    AttemptCases(d, b);
    SignedCases(b, low);
    var dh, sh, top := d / 256, s / 256, IV_SPACE / 256;
    assert d == 256 * dh + low && s == 256 * sh + b && dh < top && sh < top;
    if b == (low + 1) % 256 {
      TryNext(d, s);
    } else if b < low && Signed(b, low) > 0 {
      TryWrapped(d, s);
    } else if b > low {
      TryHigher(d, s);
    } else {
      TryLower(d, s);
    }
  }

  lemma SignedCases(b: nat, low: nat)
    requires b < 256 && low < 256
    ensures Signed(b, low) > 0 <==> (low < b <= low + 128) || b + 128 < low
    ensures -30 < Signed(b, low) < 0 <==> b < low <= b + 29 || b > low + 226
    ensures Signed(b, low) == 0 <==> b == low
  {
  }

  lemma TryNext(d: nat, s: nat)
    requires d < IV_SPACE && s < IV_SPACE && s % 256 == (d % 256 + 1) % 256
    ensures (d + 1) % IV_SPACE == s <==> InWindow(d, s)
    ensures InWindow(d, s) ==> !Late(d, s) && Forward(d, s) == 1
  {
  }

  lemma TryWrapped(d: nat, s: nat)
    requires d < IV_SPACE && s < IV_SPACE && s % 256 + 128 < d % 256 && s % 256 != (d % 256 + 1) % 256
    ensures (d + 256 + s % 256 - d % 256) % IV_SPACE == s <==> InWindow(d, s)
    ensures InWindow(d, s) ==> !Late(d, s) && Forward(d, s) != 1
  {
    var dh, sh, top := d / 256, s / 256, IV_SPACE / 256;
    var v := d + 256 + s % 256 - d % 256;
    assert v == 256 * (dh + 1) + s % 256;
    if dh + 1 == top {
      assert v % IV_SPACE == s % 256;
    } else {
      assert v % IV_SPACE == v;
    }
  }

  lemma TryHigher(d: nat, s: nat)
    requires d < IV_SPACE && s < IV_SPACE && s % 256 > d % 256 && s % 256 != d % 256 + 1
    ensures s % 256 <= d % 256 + 128 ==> (d - d % 256 + s % 256 == s <==> InWindow(d, s))
    ensures s % 256 > d % 256 + 128 ==> !InWindow(d, s) && d - d % 256 + s % 256 - 1 != s
    ensures InWindow(d, s) ==> !Late(d, s) && Forward(d, s) != 1
  {
  }

  lemma TryLower(d: nat, s: nat)
    requires d < IV_SPACE && s < IV_SPACE && d % 256 - 128 <= s % 256 <= d % 256 && s % 256 != (d % 256 + 1) % 256
    ensures InWindow(d, s) <==> s % 256 < d % 256 <= s % 256 + 29 && d - d % 256 + s % 256 == s
    ensures InWindow(d, s) ==> Late(d, s) && Forward(d, s) != 1
  {
  }

  // ---------------------------------------------------------------- datagrams

  /** What reaches the receiver: a packet of the one sender, or anything else. */
  datatype Datagram = Genuine(iv: nat, plain: Bytes) | Junk(bytes: Bytes)

  function Wire(k: Cipher, g: Datagram): Bytes {
    match g
    case Genuine(iv, p) => SealPacket(k, iv, p)
    case Junk(b) => b
  }

  /** The tag check taken as exact where it is made: if the datagram opens under the one counter it is tried under,
      it was sealed with that counter. */
  ghost predicate ExactHere(k: Cipher, r: Receiver, g: Datagram)
    requires r.Valid()
  {
    var w := Wire(k, g);
    |w| >= HEADER_SIZE ==>
      match AttemptIV(r.iv, ByteVal(w[0]))
      case TooFar => true
      case Try(v, _, _) => OpenPacket(k, v, w).Ok? ==> g.Genuine? && v == g.iv
  }

  predicate XexReported(k: Cipher, g: Datagram)
    requires g.Genuine?
  {
    Flagged(k, k.enc(Nonce(g.iv)), g.plain)
  }

  /** Opened under its own counter, a sealed packet yields its (tweaked) plaintext unless the XEX* pattern is reported. */
  lemma OpenOwn(k: Cipher, iv: nat, p: Bytes)
    requires k.Invertible()
    ensures OpenPacket(k, iv, SealPacket(k, iv, p))
         == if Flagged(k, k.enc(Nonce(iv)), p) then Fail(XexForgery) else Ok(Tweak(p))
  {
    hide Seal, Open, Flagged, Tweak, Nonce;
    OpenAfterSeal(k, k.enc(Nonce(iv)), ZERO, p);
    var (c, tag) := Seal(k, k.enc(Nonce(iv)), ZERO, p);
    var w := SealPacket(k, iv, p);
    assert w[4..] == c && w[1..4] == tag[..3];
  }

  /** A packet with other tag bytes. */
  function Retagged(w: Bytes, t: Bytes): (r: Bytes)
    requires |w| >= HEADER_SIZE && |t| == 3
    ensures |r| == |w|
  {
    w[..1] + t + w[4..]
  }

  /** Under its own counter a packet is told by its tag: with the tag it was sealed with it opens, unless the XEX*
      pattern is reported; with any other it is refused. */
  lemma TagDecides(k: Cipher, iv: nat, p: Bytes, t: Bytes)
    requires k.Invertible() && |t| == 3
    ensures var w := SealPacket(k, iv, p);
      OpenPacket(k, iv, Retagged(w, t))
      == if Flagged(k, k.enc(Nonce(iv)), p) then Fail(XexForgery)
         else if t == w[1..4] then Ok(Tweak(p)) else Fail(BadTag)
  {
    hide Seal, Open, Flagged, Tweak, Nonce;
    OpenAfterSeal(k, k.enc(Nonce(iv)), ZERO, p);
    var (c, tag) := Seal(k, k.enc(Nonce(iv)), ZERO, p);
    var w := SealPacket(k, iv, p);
    var r := Retagged(w, t);
    assert r[4..] == c && r[1..4] == t && w[1..4] == tag[..3];
  }

  /** A packet in the window whose tag bytes were altered is refused, and nothing changes. */
  lemma AlteredTagRefused(k: Cipher, r: Receiver, iv: nat, p: Bytes, t: Bytes)
    requires k.Invertible() && r.Valid() && iv < IV_SPACE && InWindow(r.iv, iv) && |t| == 3
    requires t != SealPacket(k, iv, p)[1..4]
    ensures Receive(k, r, Retagged(SealPacket(k, iv, p), t)).0 == r
    ensures Receive(k, r, Retagged(SealPacket(k, iv, p), t)).1.Fail?
  {
    hide AttemptIV, OpenPacket, Mark, ByteVal, InWindow, Late, Flagged, SealPacket, Tweak, Nonce;
    var w := SealPacket(k, iv, p);
    TagDecides(k, iv, p, t);
    FirstByte(k, iv, p);
    TriesExactly(r.iv, iv);
    assert Retagged(w, t)[0] == w[0];
    ReceiveCases(k, r, Retagged(w, t), AttemptIV(r.iv, ByteVal(w[0])));
  }

  /** Nothing but an accepted packet changes the receiver. */
  lemma FailureChangesNothing(k: Cipher, r: Receiver, packet: Bytes)
    requires r.Valid()
    ensures Receive(k, r, packet).1.Fail? ==> Receive(k, r, packet).0 == r
    ensures Receive(k, r, packet).0.Valid()
  {
    hide AttemptIV, OpenPacket, Mark, ByteVal;
  }

  /** Does the replay table speak against a packet sealed under `s`? */
  predicate Blocked(r: Receiver, s: nat)
    requires r.Valid() && s < IV_SPACE
  {
    Forward(r.iv, s) != 1 && r.history[s % 256] != 0 && r.history[s % 256] == Mark(s)
  }

  predicate Accepts(k: Cipher, r: Receiver, g: Datagram)
    requires r.Valid() && (g.Genuine? ==> g.iv < IV_SPACE)
  {
    g.Genuine? && InWindow(r.iv, g.iv) && !Blocked(r, g.iv) && !XexReported(k, g)
  }

  /** One delivery: accepted, or without effect. */
  lemma Delivery(k: Cipher, r: Receiver, g: Datagram)
    requires k.Invertible() && r.Valid() && ExactHere(k, r, g) && (g.Genuine? ==> g.iv < IV_SPACE)
    ensures var (r', answer) := Receive(k, r, Wire(k, g));
            if Accepts(k, r, g) then
              && answer == Ok(Tweak(g.plain))
              && r' == Receiver(if Late(r.iv, g.iv) then r.iv else g.iv, r.history[g.iv % 256 := Mark(g.iv)])
            else answer.Fail? && r' == r
  {
    hide AttemptIV, OpenPacket, Mark, ByteVal, InWindow, Late, Flagged, SealPacket, Tweak, Nonce;
    var w := Wire(k, g);
    if |w| < HEADER_SIZE {
      TooShortFails(k, r, w);
    } else {
      var a := AttemptIV(r.iv, ByteVal(w[0]));
      ReceiveCases(k, r, w, a);
      if g.Genuine? {
        OpenOwn(k, g.iv, g.plain);
        FirstByte(k, g.iv, g.plain);
        TriesExactly(r.iv, g.iv);
      }
    }
  }

  lemma FirstByte(k: Cipher, iv: nat, p: Bytes)
    requires iv < IV_SPACE
    ensures ByteVal(SealPacket(k, iv, p)[0]) == iv % 256
  {
    hide ByteVal, Seal, Nonce;
    NonceValue(iv);
  }

  // ---------------------------------------------------------------- runs

  /** The receiver after a whole run of deliveries. */
  ghost function After(k: Cipher, r: Receiver, ds: seq<Datagram>): (q: Receiver)
    requires r.Valid()
    ensures q.Valid()
  {
    if ds == [] then r
    else
      var before := After(k, r, ds[..|ds| - 1]);
      FailureChangesNothing(k, before, Wire(k, ds[|ds| - 1]));
      Receive(k, before, Wire(k, ds[|ds| - 1])).0
  }

  /** What decrypt15 answers to the i-th delivery. */
  ghost function Answer(k: Cipher, r: Receiver, ds: seq<Datagram>, i: nat): Result
    requires r.Valid() && i < |ds|
  {
    Receive(k, After(k, r, ds[..i]), Wire(k, ds[i])).1
  }

  ghost predicate AcceptedAt(k: Cipher, r: Receiver, ds: seq<Datagram>, i: nat, s: nat)
    requires r.Valid() && i < |ds|
  {
    ds[i].Genuine? && ds[i].iv == s && Answer(k, r, ds, i).Ok?
  }

  /** The counters accepted during a run. */
  ghost function Taken(k: Cipher, r: Receiver, ds: seq<Datagram>): set<nat>
    requires r.Valid()
  {
    if ds == [] then {}
    else
      var n := |ds| - 1;
      Taken(k, r, ds[..n]) + if ds[n].Genuine? && Answer(k, r, ds, n).Ok? then {ds[n].iv} else {}
  }

  ghost predicate ExactAt(k: Cipher, r: Receiver, ds: seq<Datagram>, i: nat)
    requires r.Valid() && i < |ds|
  {
    ExactHere(k, After(k, r, ds[..i]), ds[i])
  }

  /** Counters a sender may use that started at `start`: it does not wrap, nor does it come round to within 128 of its
      start. */
  predicate InSpan(start: nat, iv: nat) {
    start < iv < IV_SPACE && iv - start < IV_SPACE - 128
  }

  /** One sender that started at the receiver's counter. */
  ghost predicate FromOneSender(k: Cipher, r: Receiver, ds: seq<Datagram>)
    requires r.Valid()
  {
    && k.Invertible()
    && (forall i | 0 <= i < |ds| :: ExactAt(k, r, ds, i))
    && (forall i | 0 <= i < |ds| && ds[i].Genuine? :: InSpan(r.iv, ds[i].iv))
  }

  lemma FromOneSenderBefore(k: Cipher, r: Receiver, ds: seq<Datagram>, n: nat)
    requires r.Valid() && FromOneSender(k, r, ds) && n <= |ds|
    ensures FromOneSender(k, r, ds[..n])
    ensures n < |ds| ==> ExactHere(k, After(k, r, ds[..n]), ds[n])
  {
    hide ExactHere, After, InSpan;
    forall i | 0 <= i < n
      ensures ExactAt(k, r, ds[..n], i)
    {
      assert ExactAt(k, r, ds, i);
      assert ds[..n][..i] == ds[..i];
    }
    if n < |ds| {
      assert ExactAt(k, r, ds, n);
    }
  }

  ghost predicate Remembers(r: Receiver, taken: set<nat>)
    requires r.Valid()
  {
    forall s | s in taken && s + 29 >= r.iv :: r.history[s % 256] == Mark(s)
  }

  /** What every run maintains: the counter is the largest one accepted, and recent ones are on record. */
  ghost predicate Sound(start: nat, r: Receiver, taken: set<nat>) {
    && r.Valid()
    && start <= r.iv < IV_SPACE && r.iv - start < IV_SPACE - 128
    && (r.iv == start || r.iv in taken)
    && (forall s | s in taken :: start < s <= r.iv)
    && Remembers(r, taken)
  }

  lemma Accept(start: nat, r: Receiver, taken: set<nat>, s: nat)
    requires Sound(start, r, taken) && InSpan(start, s) && InWindow(r.iv, s)
    ensures Sound(start, Receiver(if Late(r.iv, s) then r.iv else s, r.history[s % 256 := Mark(s)]), taken + {s})
  {
    hide Mark;
    var q := Receiver(if Late(r.iv, s) then r.iv else s, r.history[s % 256 := Mark(s)]);
    assert if Late(r.iv, s) then s < r.iv else s > r.iv;
    forall t | t in taken + {s} && t + 29 >= q.iv
      ensures q.history[t % 256] == Mark(t)
    {
      if t != s && t % 256 == s % 256 {
        assert s <= q.iv <= s + 29 && t <= q.iv <= t + 29;
        SameResidue(t, s);
      }
    }
  }

  lemma SameResidue(t: nat, s: nat)
    requires t % 256 == s % 256 && -256 < t - s < 256
    ensures t == s
  {
  }

  lemma StepIsSound(k: Cipher, start: nat, r: Receiver, taken: set<nat>, g: Datagram)
    requires Sound(start, r, taken) && k.Invertible() && ExactHere(k, r, g)
    requires g.Genuine? ==> InSpan(start, g.iv)
    ensures var (q, answer) := Receive(k, r, Wire(k, g));
            && r.iv <= q.iv
            && Sound(start, q, taken + if g.Genuine? && answer.Ok? then {g.iv} else {})
  {
    hide Receive, InWindow, Wire, Tweak, Mark, ExactHere, XexReported, Remembers;
    Delivery(k, r, g);
    if Accepts(k, r, g) {
      Accept(start, r, taken, g.iv);
    } else {
      assert taken + {} == taken;
    }
  }

  lemma {:induction false} RunIsSound(k: Cipher, r: Receiver, ds: seq<Datagram>)
    requires r.Valid() && FromOneSender(k, r, ds)
    ensures Sound(r.iv, After(k, r, ds), Taken(k, r, ds))
  {
    hide Receive, Wire, Sound, ExactHere;
    if ds == [] {
      StartIsSound(r);
    } else {
      var n := |ds| - 1;
      FromOneSenderBefore(k, r, ds, n);
      RunIsSound(k, r, ds[..n]);
      StepIsSound(k, r.iv, After(k, r, ds[..n]), Taken(k, r, ds[..n]), ds[n]);
    }
  }

  lemma StartIsSound(r: Receiver)
    requires r.Valid()
    ensures Sound(r.iv, r, {})
  {
  }

  /** The counter never decreases, and it is the largest accepted one (or the initial one). */
  lemma {:induction false} CounterIsLargestAccepted(k: Cipher, r: Receiver, ds: seq<Datagram>, i: nat)
    requires r.Valid() && FromOneSender(k, r, ds) && i <= |ds|
    ensures r.iv <= After(k, r, ds[..i]).iv <= After(k, r, ds).iv
    ensures forall s | s in Taken(k, r, ds) :: s <= After(k, r, ds).iv
    ensures After(k, r, ds).iv == r.iv || After(k, r, ds).iv in Taken(k, r, ds)
    decreases |ds|
  {
    hide Receive, Wire, ExactHere, Remembers;
    RunIsSound(k, r, ds);
    if i < |ds| {
      var n := |ds| - 1;
      assert ds[..n][..i] == ds[..i];
      FromOneSenderBefore(k, r, ds, n);
      CounterIsLargestAccepted(k, r, ds[..n], i);
      RunIsSound(k, r, ds[..n]);
      StepIsSound(k, r.iv, After(k, r, ds[..n]), Taken(k, r, ds[..n]), ds[n]);
    } else {
      assert ds[..i] == ds;
    }
  }

  lemma {:induction false} TakenAt(k: Cipher, r: Receiver, ds: seq<Datagram>, i: nat)
    requires r.Valid() && i < |ds| && ds[i].Genuine? && Answer(k, r, ds, i).Ok?
    ensures ds[i].iv in Taken(k, r, ds)
    decreases |ds|
  {
    hide Receive, Wire;
    var n := |ds| - 1;
    if i < n {
      assert ds[..n][..i] == ds[..i];
      TakenAt(k, r, ds[..n], i);
    }
  }

  /** No packet is accepted twice, unless byte 1 of its counter is zero. */
  lemma NeverTwice(k: Cipher, r: Receiver, ds: seq<Datagram>, i: nat, j: nat, s: nat)
    requires r.Valid() && FromOneSender(k, r, ds) && i < j < |ds|
    requires AcceptedAt(k, r, ds, i, s) && AcceptedAt(k, r, ds, j, s)
    ensures Mark(s) == 0
  {
    hide Receive, Wire, ExactHere, Mark;
    assert ds[..j][..i] == ds[..i];
    TakenAt(k, r, ds[..j], i);
    FromOneSenderBefore(k, r, ds, j);
    RunIsSound(k, r, ds[..j]);
    Delivery(k, After(k, r, ds[..j]), ds[j]);
  }

  // ---------------------------------------------------------------- exactly what is accepted

  ghost predicate Recorded(r: Receiver, taken: set<nat>, b: nat)
    requires r.Valid() && b < 256
  {
    r.history[b] == 0 || exists t :: t in taken && t % 256 == b && r.history[b] == Mark(t)
  }

  lemma {:induction false} TableIsExplained(k: Cipher, r: Receiver, ds: seq<Datagram>, b: nat)
    requires r.Valid() && FromOneSender(k, r, ds)
    requires r.history == Zeros(256) && b < 256
    ensures Recorded(After(k, r, ds), Taken(k, r, ds), b)
  {
    hide Receive, Wire, ExactHere, Mark;
    if ds != [] {
      var n := |ds| - 1;
      var before := After(k, r, ds[..n]);
      FromOneSenderBefore(k, r, ds, n);
      TableIsExplained(k, r, ds[..n], b);
      Delivery(k, before, ds[n]);
    }
  }

  lemma MarkInjective(s: nat, t: nat)
    requires Mark(s) == Mark(t) && s % 256 == t % 256 && -65536 < s - t < 65536
    ensures s == t
  {
    hide ByteVal, Next, ToByte;
    ValOfToByte(s / 256 % 256);
    ValOfToByte(t / 256 % 256);
    assert (s / 256 - t / 256) % 256 == 0;
  }

  /** With an empty table and fewer than 65,536 counters in play, the answer to each delivery is determined:
      accepted iff the counter is in the window and the packet is not a recorded late one. */
  lemma AcceptedExactly(k: Cipher, r: Receiver, ds: seq<Datagram>, j: nat)
    requires r.Valid() && FromOneSender(k, r, ds)
    requires r.history == Zeros(256)
    requires forall i | 0 <= i < |ds| && ds[i].Genuine? :: ds[i].iv <= r.iv + 65536
    requires j < |ds| && ds[j].Genuine?
    ensures var d, s := After(k, r, ds[..j]).iv, ds[j].iv;
            Answer(k, r, ds, j).Ok? <==>
              && InWindow(d, s)
              && !(Late(d, s) && s in Taken(k, r, ds[..j]) && Mark(s) != 0)
              && !XexReported(k, ds[j])
  {
    hide Receive, Wire, ExactHere, Mark, XexReported;
    var q, taken, s := After(k, r, ds[..j]), Taken(k, r, ds[..j]), ds[j].iv;
    FromOneSenderBefore(k, r, ds, j);
    RunIsSound(k, r, ds[..j]);
    Delivery(k, q, ds[j]);
    if InWindow(q.iv, s) && Blocked(q, s) {
      TableIsExplained(k, r, ds[..j], s % 256);
      var t :| t in taken && t % 256 == s % 256 && q.history[s % 256] == Mark(t);
      MarkInjective(s, t);
    }
  }

  /** Every packet up to 127 ahead of the counter gets through, whatever was lost, reordered or repeated before. */
  lemma ForwardGetsThrough(k: Cipher, r: Receiver, ds: seq<Datagram>, j: nat)
    requires r.Valid() && FromOneSender(k, r, ds)
    requires r.history == Zeros(256)
    requires forall i | 0 <= i < |ds| && ds[i].Genuine? :: ds[i].iv <= r.iv + 65536
    requires j < |ds| && ds[j].Genuine? && !XexReported(k, ds[j])
    requires After(k, r, ds[..j]).iv < ds[j].iv <= After(k, r, ds[..j]).iv + 127
    ensures Answer(k, r, ds, j) == Ok(Tweak(ds[j].plain))
    ensures After(k, r, ds[..j + 1]).iv == ds[j].iv
  {
    hide Receive, Wire, ExactHere, Mark, XexReported, Tweak;
    FromOneSenderBefore(k, r, ds, j);
    RunIsSound(k, r, ds[..j]);
    AcceptedExactly(k, r, ds, j);
    Delivery(k, After(k, r, ds[..j]), ds[j]);
    assert ds[..j + 1][..j] == ds[..j];
  }

  /** A packet delayed across a low-byte wrap is lost: it is tried under a wrong counter and changes nothing. */
  lemma LateAcrossWrapIsLost(k: Cipher, r: Receiver, g: Datagram)
    requires k.Invertible() && r.Valid() && ExactHere(k, r, g) && g.Genuine?
    requires g.iv < r.iv <= g.iv + 29 && r.iv % 256 < r.iv - g.iv
    ensures AttemptIV(r.iv, g.iv % 256) == Try(g.iv + 255, true, true)
    ensures Receive(k, r, Wire(k, g)).0 == r && Receive(k, r, Wire(k, g)).1.Fail?
  {
    hide Receive, Wire, ExactHere, Mark, XexReported, Tweak;
    Delivery(k, r, g);
  }

  // ---------------------------------------------------------------- runs that need no assumption on tags

  /** A packet that is tried under its own counter cannot break exactness. */
  lemma InWindowIsExact(k: Cipher, r: Receiver, g: Datagram)
    requires r.Valid() && g.Genuine? && g.iv < IV_SPACE && InWindow(r.iv, g.iv)
    ensures ExactHere(k, r, g)
  {
    hide AttemptIV, OpenPacket, ByteVal, InWindow, SealPacket;
    FirstByte(k, g.iv, g.plain);
    TriesExactly(r.iv, g.iv);
  }

  /** The sender's packets in order, none lost. */
  ghost predicate Lossless(k: Cipher, r: Receiver, ds: seq<Datagram>) {
    && r.iv + |ds| < IV_SPACE && |ds| < IV_SPACE - 128
    && forall i | 0 <= i < |ds| :: ds[i].Genuine? && ds[i].iv == r.iv + 1 + i && !XexReported(k, ds[i])
  }

  /** Every such run meets the assumptions of the run theorems, whatever the cipher, and every packet of it arrives. */
  lemma {:induction false} LosslessRunArrives(k: Cipher, r: Receiver, ds: seq<Datagram>)
    requires k.Invertible() && r.Valid() && Lossless(k, r, ds)
    ensures FromOneSender(k, r, ds) && After(k, r, ds).iv == r.iv + |ds|
    ensures forall i | 0 <= i < |ds| :: Answer(k, r, ds, i) == Ok(Tweak(ds[i].plain))
    decreases |ds|
  {
    hide Receive, Wire, XexReported, Tweak, ExactHere;
    if ds != [] {
      var n := |ds| - 1;
      var before := After(k, r, ds[..n]);
      LosslessRunArrives(k, r, ds[..n]);
      InWindowIsExact(k, before, ds[n]);
      Delivery(k, before, ds[n]);
      forall i | 0 <= i < |ds|
        ensures ExactAt(k, r, ds, i) && Answer(k, r, ds, i) == Ok(Tweak(ds[i].plain))
      {
        if i < n {
          assert ds[..n][..i] == ds[..i];
          assert ExactAt(k, r, ds[..n], i) && Answer(k, r, ds[..n], i) == Ok(Tweak(ds[i].plain));
        }
      }
    }
  }
}
