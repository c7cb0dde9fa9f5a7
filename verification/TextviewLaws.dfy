/** What the chat view shows, read off what was done to it: the newest lines, in the last width and with or
    without time stamps as last chosen; and where scrolling goes. */
module TextviewLaws {
  import opened Textview

  // ---------------------------------------------------------------- a line without its time stamp

  predicate AllSpace(s: string) {
    forall k | 0 <= k < |s| :: IsSpace(s[k])
  }

  predicate Bare(s: string) {
    s != "" ==> !IsSpace(s[0]) && !IsSpace(s[|s| - 1])
  }

  lemma {:induction false} TrimLeftIs(s: string) returns (front: string)
    ensures s == front + TrimLeft(s) && AllSpace(front)
    ensures TrimLeft(s) != "" ==> !IsSpace(TrimLeft(s)[0])
  {
    if s != "" && IsSpace(s[0]) {
      front := TrimLeftIs(s[1..]);
      front := [s[0]] + front;
      assert s == [s[0]] + s[1..];
    } else {
      front := "";
    }
  }

  lemma {:induction false} TrimRightIs(s: string) returns (back: string)
    ensures s == TrimRight(s) + back && AllSpace(back)
    ensures TrimRight(s) != "" ==> !IsSpace(TrimRight(s)[|TrimRight(s)| - 1])
  {
    if s != "" && IsSpace(s[|s| - 1]) {
      back := TrimRightIs(s[..|s| - 1]);
      back := back + [s[|s| - 1]];
      assert s == s[..|s| - 1] + [s[|s| - 1]];
    } else {
      back := "";
    }
  }

  /** Trimming takes white space off both ends, all of it, and nothing else. */
  lemma TrimmedIs(s: string) returns (front: string, back: string)
    ensures s == front + TrimRight(TrimLeft(s)) + back && AllSpace(front) && AllSpace(back)
    ensures Bare(TrimRight(TrimLeft(s)))
  {
    front := TrimLeftIs(s);
    var left := TrimLeft(s);
    back := TrimRightIs(left);
    var t := TrimRight(left);
    if t != "" {
      assert left[0] == t[0];
    }
  }

  lemma {:induction false} StampEnds(line: string, from: nat, k: nat)
    requires from <= k <= |line| && (forall j | from <= j < k :: line[j] != ']') && (k < |line| ==> line[k] == ']')
    ensures AfterStamp(line, from) == if k == |line| then line else TrimRight(TrimLeft(line[k + 1..]))
    decreases k - from
  {
    if from < k {
      StampEnds(line, from + 1, k);
    }
  }

  /** With stamps hidden, what is shown of a line is the trimmed text after its first closing bracket, or all of
      it, untrimmed, if it has none; with stamps shown it is the line itself. */
  lemma ShownIs(line: string, k: nat)
    requires k <= |line| && ']' !in line[..k] && (k < |line| ==> line[k] == ']')
    ensures Shown(line, true) == line
    ensures Shown(line, false) == if k == |line| then line else TrimRight(TrimLeft(line[k + 1..]))
  {
    forall j | 0 <= j < k
      ensures line[j] != ']'
    {
      assert line[j] == line[..k][j];
    }
    StampEnds(line, 0, k);
  }

  // ---------------------------------------------------------------- the display after any operations

  /** The width given last. */
  function WidthSet(ops: seq<Op>): int {
    if ops == [] then 0
    else
      var op := ops[|ops| - 1];
      if op.SetBounds? then op.x1 - op.x0 else WidthSet(ops[..|ops| - 1])
  }

  /** Time stamps are shown at first, and after every second toggle. */
  function StampsOn(ops: seq<Op>): bool {
    if ops == [] then true
    else if ops[|ops| - 1].Toggle? then !StampsOn(ops[..|ops| - 1]) else StampsOn(ops[..|ops| - 1])
  }

  lemma SettingsStep(v: View, op: Op)
    ensures Step(v, op).Width() == if op.SetBounds? then op.x1 - op.x0 else v.Width()
    ensures Step(v, op).stamps == if op.Toggle? then !v.stamps else v.stamps
  {
    hide WrapAll, Wrapped;
  }

  lemma {:induction false} SettingsAre(ops: seq<Op>)
    ensures After(ops).Width() == WidthSet(ops) && After(ops).stamps == StampsOn(ops)
  {
    hide Step;
    if ops != [] {
      SettingsAre(ops[..|ops| - 1]);
      SettingsStep(After(ops[..|ops| - 1]), ops[|ops| - 1]);
    }
  }

  /** After any operations the display is what wrapping the newest lines from scratch gives, in the width set last
      and with or without time stamps as chosen last. */
  lemma DisplayIs(ops: seq<Op>)
    ensures var log := Log(ops);
            After(ops).parsed == if WidthSet(ops) > 0
                                 then WrapAll(log[|log| - Kept(|log|)..], StampsOn(ops), WidthSet(ops))
                                 else []
  {
    hide Step, Log, Kept, WrapAll, WidthSet, StampsOn;
    AlwaysConsistent(ops);
    NewestLines(ops);
    SettingsAre(ops);
  }

  // ---------------------------------------------------------------- scrolling

  function Times(v: View, op: Op, n: nat): View {
    if n == 0 then v else Step(Times(v, op, n - 1), op)
  }

  /** Up shows one older line until the oldest is on screen; Down one newer, unless Up was pressed past that point
      or the newest are shown; Top shows the oldest, Bottom the newest. The text is left alone. */
  lemma ScrollShows(v: View, height: int)
    requires Consistent(v) && height > 0
    ensures var first := FirstVisible(v, height);
            && FirstVisible(Step(v, Up), height) == (if first > 0 then first - 1 else 0)
            && FirstVisible(Step(v, Down), height)
               == (if 0 < v.current && v.current + height <= |v.parsed| then first + 1 else first)
            && FirstVisible(Step(v, Top), height) == 0
            && FirstVisible(Step(v, Bottom), height) == (if |v.parsed| > height then |v.parsed| - height else 0)
    ensures forall op | op in {Up, Down, Top, Bottom} :: Step(v, op) == v.(current := Step(v, op).current)
  {
    hide WrapAll;
  }

  /** Down takes back an Up that moved, and Up a Down. */
  lemma ScrollBack(v: View)
    requires Consistent(v)
    ensures v.current + 1 < |v.parsed| ==> Step(Step(v, Up), Down) == v
    ensures v.current > 0 ==> Step(Step(v, Down), Up) == v
  {
    hide WrapAll;
  }

  /** From the newest lines, `n` times Up shows lines `n` older, or the oldest there are. */
  lemma {:induction false} UpFromBottom(v: View, n: nat, height: int)
    requires Consistent(v) && height > 0
    ensures var w := Times(Step(v, Bottom), Up, n);
            var newest := FirstVisible(Step(v, Bottom), height);
            && w == v.(current := w.current) && Consistent(w)
            && FirstVisible(w, height) == (if n < newest then newest - n else 0)
  {
    hide WrapAll, FirstVisible;
    StepConsistent(v, Bottom);
    if n > 0 {
      UpFromBottom(v, n - 1, height);
      var u := Times(Step(v, Bottom), Up, n - 1);
      StepConsistent(u, Up);
      ScrollShows(u, height);
    } else {
      ScrollShows(v, height);
    }
  }

  lemma {:induction false} DownFromTop(v: View, n: nat)
    requires Consistent(v) && n < |v.parsed|
    ensures Times(Step(v, Top), Down, n) == v.(current := |v.parsed| - 1 - n)
  {
    hide WrapAll;
    if n > 0 {
      DownFromTop(v, n - 1);
    }
  }

  /** Top scrolls past the point where the oldest line is first on screen, so the first Downs after it show no
      change: one fewer than the view is high, exactly. */
  lemma TopIsSticky(v: View, n: nat, height: int)
    requires Consistent(v) && 0 < height <= |v.parsed| && n < |v.parsed|
    ensures FirstVisible(Times(Step(v, Top), Down, n), height) == if n < height then 0 else n - (height - 1)
  {
    hide WrapAll, Step;
    DownFromTop(v, n);
  }
}
