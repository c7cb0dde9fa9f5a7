/** The chat view: it keeps its history wrapped to its width, wrapping only new lines, and drops old history in blocks. */
module Textview {
  import Tree

  const MAX_LINES := 10000
  const TRIM_CHUNK := 1000

  // ---------------------------------------------------------------- one line

  /** Unicode white space. */
  predicate IsSpace(c: char) {
    || c in "\t\n\r " || c == '\U{000B}' || c == '\U{000C}' || c == '\U{0085}' || c == '\U{00A0}' || c == '\U{1680}'
    || '\U{2000}' <= c <= '\U{200A}' || c == '\U{2028}' || c == '\U{2029}' || c == '\U{202F}' || c == '\U{205F}'
    || c == '\U{3000}'
  }

  function TrimLeft(s: string): string {
    if s != "" && IsSpace(s[0]) then TrimLeft(s[1..]) else s
  }

  function TrimRight(s: string): string {
    if s != "" && IsSpace(s[|s| - 1]) then TrimRight(s[..|s| - 1]) else s
  }

  /** What follows the first "]" of a line, without surrounding space; the whole line if it has none. */
  function AfterStamp(line: string, from: nat): string
    requires from <= |line|
    decreases |line| - from
  {
    if from == |line| then line
    else if line[from] == ']' then TrimRight(TrimLeft(line[from + 1..]))
    else AfterStamp(line, from + 1)
  }

  function Shown(line: string, stamps: bool): string {
    if stamps then line else AfterStamp(line, 0)
  }

  /** `l` cut into pieces of `width` characters. */
  function Pieces(l: string, width: nat): seq<string>
    requires width > 0
  {
    if l == "" then [] else if |l| <= width then [l] else [l[..width]] + Pieces(l[width..], width)
  }

  function Wrapped(line: string, stamps: bool, width: int): seq<string> {
    if width <= 0 then [] else Pieces(Shown(line, stamps), width)
  }

  function Concat(parts: seq<string>): string {
    if parts == [] then "" else parts[0] + Concat(parts[1..])
  }

  /** Wrapping loses and adds nothing, and only the last piece may be short. */
  lemma {:induction false} PiecesOf(l: string, width: nat)
    requires width > 0
    ensures Concat(Pieces(l, width)) == l
    ensures forall i | 0 <= i < |Pieces(l, width)| ::
      0 < |Pieces(l, width)[i]| <= width && (i + 1 < |Pieces(l, width)| ==> |Pieces(l, width)[i]| == width)
    decreases |l|
  {
    if |l| > width {
      PiecesOf(l[width..], width);
    } else if l != "" {
      assert Concat([l]) == l + Concat([]);
    }
  }

  /** As few pieces as possible. */
  lemma {:induction false} PieceCount(l: string, width: nat)
    requires width > 0
    ensures |l| <= |Pieces(l, width)| * width < |l| + width
    decreases |l|
  {
    if |l| > width {
      PieceCount(l[width..], width);
      var n := |Pieces(l[width..], width)|;
      assert (n + 1) * width == n * width + width;
    }
  }

  /** wrapLine. */
  method WrapLine(line: string, stamps: bool, width: int) returns (wrapped: seq<string>)
    requires width > 0
    ensures wrapped == Wrapped(line, stamps, width)
  {
    var l := Shown(line, stamps);
    wrapped := [];
    var current, chars := "", 0;
    assert l[0..] == l;
    for k := 0 to |l|
      invariant chars == |current| <= width && chars <= k && (k > 0 ==> chars > 0) && current == l[k - chars..k]
      invariant Pieces(l, width) == wrapped + Pieces(l[k - chars..], width)
    {
      if chars >= width {
        assert l[k - chars..][..width] == current && l[k - chars..][width..] == l[k..];
        wrapped := wrapped + [current];
        current, chars := "", 0;
      }
      current := current + [l[k]];
      chars := chars + 1;
    }
    if chars > 0 {
      assert l[|l| - chars..] == current;
      wrapped := wrapped + [current];
    }
  }

  // ---------------------------------------------------------------- the view

  /** `wraps` counts the lines wrapped so far. */
  datatype View = View(lines: seq<string>, current: int, stamps: bool, x0: int, x1: int, parsed: seq<string>, wraps: nat) {
    function Width(): int { x1 - x0 }
  }

  const FRESH := View([], 0, true, 0, 0, [], 0)

  datatype Op = Add(line: string) | SetBounds(x0: int, x1: int) | Toggle | Up | Down | Top | Bottom | Clear

  function WrapAll(lines: seq<string>, stamps: bool, width: int): seq<string> {
    if lines == [] then []
    else WrapAll(lines[..|lines| - 1], stamps, width) + Wrapped(lines[|lines| - 1], stamps, width)
  }

  function Clamp(current: int, n: nat): int {
    if n == 0 then 0 else Tree.Bounded(current, 0, n - 1)
  }

  /** updateParsedLines: wrap everything again. */
  function Rewrap(v: View): View {
    if v.lines == [] || v.Width() <= 0 then v.(parsed := [], current := 0)
    else
      var parsed := WrapAll(v.lines, v.stamps, v.Width());
      v.(parsed := parsed, current := Clamp(v.current, |parsed|), wraps := v.wraps + |v.lines|)
  }

  function Added(v: View, line: string): View {
    var lines := v.lines + [line];
    if |lines| > MAX_LINES then Rewrap(v.(lines := lines[|lines| - (MAX_LINES - TRIM_CHUNK)..]))
    else if v.Width() > 0 then
      var parsed := v.parsed + Wrapped(line, v.stamps, v.Width());
      v.(lines := lines, parsed := parsed, current := Clamp(v.current, |parsed|), wraps := v.wraps + 1)
    else v.(lines := lines)
  }

  function Step(v: View, op: Op): View {
    match op
    case Add(line) => Added(v, line)
    case SetBounds(x0, x1) => Rewrap(v.(x0 := x0, x1 := x1))
    case Toggle => Rewrap(v.(stamps := !v.stamps))
    case Up => if v.current + 1 < |v.parsed| then v.(current := v.current + 1) else v
    case Down => if v.current - 1 >= 0 then v.(current := v.current - 1) else v
    case Top => v.(current := if |v.parsed| - 1 > 0 then |v.parsed| - 1 else 0)
    case Bottom => v.(current := 0)
    case Clear => v.(lines := [], current := 0, parsed := [])
  }

  function After(ops: seq<Op>): View {
    if ops == [] then FRESH else Step(After(ops[..|ops| - 1]), ops[|ops| - 1])
  }

  // ---------------------------------------------------------------- the cache is a full re-wrap

  /** The wrapped buffer is what wrapping all stored lines would give, and the scroll offset is in range. */
  ghost predicate Consistent(v: View) {
    && v.parsed == (if v.Width() > 0 then WrapAll(v.lines, v.stamps, v.Width()) else [])
    && 0 <= v.current && (v.current < |v.parsed| || v.current == 0)
    && |v.lines| <= MAX_LINES
  }

  lemma RewrapConsistent(v: View)
    requires |v.lines| <= MAX_LINES
    ensures Consistent(Rewrap(v))
  {
  }

  lemma NoLines(stamps: bool, width: int)
    ensures WrapAll([], stamps, width) == []
  {
  }

  lemma WrapOneMore(lines: seq<string>, line: string, stamps: bool, width: int)
    ensures WrapAll(lines + [line], stamps, width) == WrapAll(lines, stamps, width) + Wrapped(line, stamps, width)
  {
    assert (lines + [line])[..|lines|] == lines;
  }

  lemma AddedConsistent(v: View, line: string)
    requires Consistent(v)
    ensures Consistent(Added(v, line))
  {
    hide WrapAll, Rewrap, Wrapped;
    var lines := v.lines + [line];
    WrapOneMore(v.lines, line, v.stamps, v.Width());
    if |lines| > MAX_LINES {
      RewrapConsistent(v.(lines := lines[|lines| - (MAX_LINES - TRIM_CHUNK)..]));
    }
  }

  lemma StepConsistent(v: View, op: Op)
    requires Consistent(v)
    ensures Consistent(Step(v, op))
  {
    match op {
      case Add(line) => AddedConsistent(v, line);
      case SetBounds(x0, x1) => RewrapConsistent(v.(x0 := x0, x1 := x1));
      case Toggle => RewrapConsistent(v.(stamps := !v.stamps));
      case _ =>
    }
    hide WrapAll, Added, Rewrap;
  }

  lemma {:induction false} AlwaysConsistent(ops: seq<Op>)
    ensures Consistent(After(ops))
  {
    if ops != [] {
      AlwaysConsistent(ops[..|ops| - 1]);
      StepConsistent(After(ops[..|ops| - 1]), ops[|ops| - 1]);
      hide Consistent, Step;
    }
  }

  // ---------------------------------------------------------------- what is kept

  /** The lines added since the last Clear. */
  function Log(ops: seq<Op>): seq<string> {
    if ops == [] then []
    else
      var log, op := Log(ops[..|ops| - 1]), ops[|ops| - 1];
      if op.Clear? then [] else if op.Add? then log + [op.line] else log
  }

  /** How many of `n` added lines are kept: all up to 10,000, then between 9,000 and 10,000. */
  function Kept(n: nat): (k: nat)
    ensures k <= n && k <= MAX_LINES && (n > MAX_LINES ==> k >= MAX_LINES - TRIM_CHUNK)
  {
    if n <= MAX_LINES then n else MAX_LINES - TRIM_CHUNK + (n - MAX_LINES - 1) % (TRIM_CHUNK + 1)
  }

  lemma KeptStep(n: nat)
    ensures Kept(n + 1) == if Kept(n) == MAX_LINES then MAX_LINES - TRIM_CHUNK else Kept(n) + 1
  {
    if n > MAX_LINES {
      var m := n - MAX_LINES - 1;
      assert (m + 1) % 1001 == if m % 1001 == 1000 then 0 else m % 1001 + 1;
    }
  }

  /** `lines` are the newest lines of `log`, as many as Kept says. */
  ghost predicate Newest(lines: seq<string>, log: seq<string>) {
    lines == log[|log| - Kept(|log|)..]
  }

  lemma NewestAfterAdd(log: seq<string>, lines: seq<string>, line: string)
    requires Newest(lines, log)
    ensures var added := lines + [line];
      Newest(if |added| > MAX_LINES then added[|added| - (MAX_LINES - TRIM_CHUNK)..] else added, log + [line])
  {
    hide Kept;
    KeptStep(|log|);
    assert lines + [line] == (log + [line])[|log| - Kept(|log|)..];
  }

  lemma NothingYet()
    ensures Newest([], [])
  {
    NothingAdded();
  }

  /** The stored lines are the newest ones since the last Clear. */
  lemma {:induction false} NewestLines(ops: seq<Op>)
    ensures Newest(After(ops).lines, Log(ops))
  {
    hide Step, Added, Newest;
    NothingYet();
    if ops != [] {
      var prefix, op := ops[..|ops| - 1], ops[|ops| - 1];
      NewestLines(prefix);
      if op.Add? {
        AddedLines(After(prefix), op.line);
        NewestAfterAdd(Log(prefix), After(prefix).lines, op.line);
      } else {
        OtherLines(After(prefix), op);
      }
    }
  }

  lemma AddedLines(v: View, line: string)
    ensures var lines := v.lines + [line];
      Step(v, Add(line)).lines == if |lines| > MAX_LINES then lines[|lines| - (MAX_LINES - TRIM_CHUNK)..] else lines
  {
  }

  lemma OtherLines(v: View, op: Op)
    requires !op.Add?
    ensures Step(v, op).lines == if op.Clear? then [] else v.lines
  {
  }

  // ---------------------------------------------------------------- what it costs

  /** The view after `lines` are added to an empty one. */
  function Fill(v: View, lines: seq<string>): View {
    if lines == [] then v else Added(Fill(v, lines[..|lines| - 1]), lines[|lines| - 1])
  }

  /** How often the history has been trimmed after `n` additions. */
  function Trims(n: nat): nat {
    if n <= MAX_LINES then 0 else (n - MAX_LINES - 1) / (TRIM_CHUNK + 1) + 1
  }

  function Cost(n: nat): int {
    n + (MAX_LINES - TRIM_CHUNK - 1) * Trims(n)
  }

  lemma TrimsStep(n: nat)
    ensures Trims(n + 1) == if Kept(n) == MAX_LINES then Trims(n) + 1 else Trims(n)
  {
    if n > MAX_LINES {
      var m := n - MAX_LINES - 1;
      assert (m + 1) / 1001 == if m % 1001 == 1000 then m / 1001 + 1 else m / 1001;
    }
  }

  lemma AddedCost(v: View, line: string)
    requires v.Width() > 0
    ensures var w := Added(v, line);
      && w.Width() == v.Width()
      && |w.lines| == (if |v.lines| + 1 > MAX_LINES then MAX_LINES - TRIM_CHUNK else |v.lines| + 1)
      && w.wraps == v.wraps + (if |v.lines| + 1 > MAX_LINES then MAX_LINES - TRIM_CHUNK else 1)
  {
    hide WrapAll, Wrapped;
  }

  /** Exactly what n additions cost at a fixed positive width. */
  lemma {:induction false} FillCost(v: View, lines: seq<string>)
    requires v.lines == [] && v.Width() > 0
    ensures var w := Fill(v, lines); |w.lines| == Kept(|lines|) && w.Width() == v.Width() && w.wraps == v.wraps + Cost(|lines|)
  {
    hide Kept, Trims, Added;
    if lines == [] {
      NothingAdded();
    } else {
      var n := |lines| - 1;
      FillCost(v, lines[..n]);
      KeptStep(n);
      TrimsStep(n);
      AddedCost(Fill(v, lines[..n]), lines[n]);
    }
  }

  lemma NothingAdded()
    ensures Kept(0) == 0 && Trims(0) == 0
  {
  }

  /** At most ten wrapped lines for every line added. */
  lemma AmortisedCost(v: View, lines: seq<string>)
    requires v.lines == [] && v.Width() > 0
    ensures Fill(v, lines).wraps - v.wraps <= 10 * |lines|
  {
    FillCost(v, lines);
    CostBound(|lines|);
    hide Fill, Cost;
  }

  lemma CostBound(n: nat)
    ensures n <= Cost(n) <= 10 * n
  {
  }

  // ---------------------------------------------------------------- the widget

  /** The first wrapped line on screen. */
  function FirstVisible(v: View, height: int): int {
    if height <= 0 || v.parsed == [] then 0
    else
      var bottom := if |v.parsed| > height then |v.parsed| - height else 0;
      if bottom > v.current then bottom - v.current else 0
  }

  class Widget {
    var lines: seq<string>
    var currentLine: int
    var showTimestamps: bool
    var parsedLines: seq<string>
    var x0: int
    var x1: int
    ghost var wraps: nat

    constructor ()
      ensures State() == FRESH
    {
      lines, currentLine, showTimestamps, parsedLines, x0, x1, wraps := [], 0, true, [], 0, 0, 0;
    }

    ghost function State(): View
      reads this
    {
      View(lines, currentLine, showTimestamps, x0, x1, parsedLines, wraps)
    }

    method ClampCurrentLine()
      modifies this`currentLine
      ensures currentLine == Clamp(old(currentLine), |parsedLines|)
    {
      if |parsedLines| == 0 {
        currentLine := 0;
      } else {
        currentLine := Tree.Bounded(currentLine, 0, |parsedLines| - 1);
      }
    }

    method UpdateParsedLines()
      modifies this`parsedLines, this`currentLine, this`wraps
      ensures State() == Rewrap(old(State()))
    {
      hide WrapAll;
      var width := x1 - x0;
      if lines == [] || width <= 0 {
        parsedLines, currentLine := [], 0;
        return;
      }
      parsedLines := WrapLines(width);
      ClampCurrentLine();
    }

    method WrapLines(width: int) returns (parsed: seq<string>)
      requires width > 0
      modifies this`wraps
      ensures parsed == WrapAll(lines, showTimestamps, width) && wraps == old(wraps) + |lines|
    {
      hide WrapAll, Wrapped;
      parsed := [];
      NoLines(showTimestamps, width);
      for k := 0 to |lines|
        invariant parsed == WrapAll(lines[..k], showTimestamps, width) && wraps == old(wraps) + k
      {
        var wrapped := WrapLine(lines[k], showTimestamps, width);
        wraps := wraps + 1;
        WrapOneMore(lines[..k], lines[k], showTimestamps, width);
        assert lines[..k] + [lines[k]] == lines[..k + 1];
        parsed := parsed + wrapped;
      }
      assert lines[..|lines|] == lines;
    }

    method AddLine(line: string)
      modifies this
      ensures State() == Step(old(State()), Add(line))
    {
      hide Wrapped, Rewrap;
      lines := lines + [line];
      if |lines| > MAX_LINES {
        var keep := MAX_LINES - TRIM_CHUNK;
        lines := lines[|lines| - keep..];
        UpdateParsedLines();
      } else if x1 - x0 > 0 {
        var wrapped := WrapLine(line, showTimestamps, x1 - x0);
        wraps := wraps + 1;
        parsedLines := parsedLines + wrapped;
        ClampCurrentLine();
      }
    }

    method SetBounds(x0: int, x1: int)
      modifies this
      ensures State() == Step(old(State()), Op.SetBounds(x0, x1))
    {
      this.x0, this.x1 := x0, x1;
      UpdateParsedLines();
    }

    method ToggleTimestamps()
      modifies this
      ensures State() == Step(old(State()), Toggle)
    {
      showTimestamps := !showTimestamps;
      UpdateParsedLines();
    }

    method ScrollUp()
      modifies this
      ensures State() == Step(old(State()), Up)
    {
      var newLine := currentLine + 1;
      if newLine < |parsedLines| { currentLine := newLine; }
    }

    method ScrollDown()
      modifies this
      ensures State() == Step(old(State()), Down)
    {
      var newLine := currentLine - 1;
      if newLine >= 0 { currentLine := newLine; }
    }

    method ScrollTop()
      modifies this
      ensures State() == Step(old(State()), Top)
    {
      var newLine := |parsedLines| - 1;
      currentLine := if newLine > 0 then newLine else 0;
    }

    method ScrollBottom()
      modifies this
      ensures State() == Step(old(State()), Bottom)
    {
      currentLine := 0;
    }

    method ClearLines()
      modifies this
      ensures State() == Step(old(State()), Clear)
    {
      lines, currentLine, parsedLines := [], 0, [];
    }

    /** The first wrapped line on screen: every line shown exists, and unscrolled the newest are shown. */
    method VisibleStartLine(height: int) returns (start: nat)
      requires Consistent(State())
      ensures start == FirstVisible(State(), height)
      ensures parsedLines != [] ==> start < |parsedLines|
      ensures height > 0 && currentLine == 0 ==> start == if |parsedLines| <= height then 0 else |parsedLines| - height
      ensures height > 0 && currentLine + height <= |parsedLines| ==> start + height == |parsedLines| - currentLine
      ensures height > 0 && currentLine + height > |parsedLines| ==> start == 0
    {
      if height <= 0 || |parsedLines| == 0 { return 0; }
      var bottomStart := |parsedLines| - height;
      if bottomStart < 0 { bottomStart := 0; }
      var at := bottomStart - currentLine;
      if at < 0 { return 0; }
      return at;
    }
  }
}
