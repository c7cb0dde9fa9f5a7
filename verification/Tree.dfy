/** The tree widget: its lines are made by walking a generator that may describe a cyclic graph, cut off in depth and
    in length. */
module Tree {
  import opened Options

  const MAX_DEPTH := 64
  const MAX_LINES := 100000

  datatype Line<T> = Line(level: nat, item: T)

  /** The items under an item, or the top ones for None; a nil item is None. */
  type Generator<!T> = Option<T> -> seq<Option<T>>

  // ---------------------------------------------------------------- the whole walk

  /** An item and all below it in preorder, cut at depth 64. */
  function Preorder<T>(gen: Generator<T>, item: Option<T>, level: nat): seq<Line<T>>
    decreases MAX_DEPTH - level, 1, 0
  {
    if item.None? || level >= MAX_DEPTH then []
    else [Line(level, item.value)] + PreorderAll(gen, gen(item), level + 1)
  }

  function PreorderAll<T>(gen: Generator<T>, items: seq<Option<T>>, level: nat): seq<Line<T>>
    decreases MAX_DEPTH - level, 2, |items|
  {
    if items == [] then []
    else PreorderAll(gen, items[..|items| - 1], level) + Preorder(gen, items[|items| - 1], level)
  }

  /** The first 100,000 lines. */
  function Cut<T>(lines: seq<Line<T>>): seq<Line<T>> {
    if |lines| <= MAX_LINES then lines else lines[..MAX_LINES]
  }

  function AllLines<T>(gen: Generator<T>): seq<Line<T>> {
    Cut(PreorderAll(gen, gen(None), 0))
  }

  lemma CutMore<T>(a: seq<Line<T>>, b: seq<Line<T>>)
    ensures Cut(Cut(a) + b) == Cut(a + b)
    ensures |a| >= MAX_LINES ==> Cut(a + b) == Cut(a)
  {
  }

  lemma CutThrice<T>(a: seq<Line<T>>, b: seq<Line<T>>, c: seq<Line<T>>)
    ensures Cut(Cut(a + b) + c) == Cut(a + (b + c))
  {
    CutMore(a + b, c);
    assert a + b + c == a + (b + c);
  }

  lemma {:induction false} PreorderPrefix<T>(gen: Generator<T>, items: seq<Option<T>>, k: nat, level: nat)
    requires k <= |items|
    ensures PreorderAll(gen, items[..k], level) <= PreorderAll(gen, items, level)
    decreases |items|
  {
    if k < |items| {
      PreorderPrefix(gen, items[..|items| - 1], k, level);
      assert items[..|items| - 1][..k] == items[..k];
    } else {
      assert items[..k] == items;
    }
  }

  /** rebuild_rec. */
  method RebuildRec<T>(gen: Generator<T>, lines: seq<Line<T>>, parent: Option<T>, level: nat) returns (r: seq<Line<T>>)
    requires |lines| <= MAX_LINES && level <= MAX_DEPTH
    ensures r == Cut(lines + Preorder(gen, parent, level))
    decreases MAX_DEPTH - level, 0
  {
    if parent.None? || level >= MAX_DEPTH || |lines| >= MAX_LINES {
      assert parent.None? || level >= MAX_DEPTH ==> lines + [] == lines;
      CutMore(lines, Preorder(gen, parent, level));
      return lines;
    }
    var head := [Line(level, parent.value)];
    r := lines + head;
    r := RebuildAll(gen, r, gen(parent), level + 1);
    assert lines + head + PreorderAll(gen, gen(parent), level + 1) == lines + Preorder(gen, parent, level);
  }

  /** The loop of rebuild and of rebuild_rec. */
  method RebuildAll<T>(gen: Generator<T>, lines: seq<Line<T>>, items: seq<Option<T>>, level: nat) returns (r: seq<Line<T>>)
    requires |lines| <= MAX_LINES && level <= MAX_DEPTH
    ensures r == Cut(lines + PreorderAll(gen, items, level))
    decreases MAX_DEPTH - level, 1
  {
    r := lines;
    assert lines + [] == lines;
    for k := 0 to |items|
      invariant r == Cut(lines + PreorderAll(gen, items[..k], level)) && |r| <= MAX_LINES
    {
      if |r| >= MAX_LINES {
        PreorderPrefix(gen, items, k, level);
        PrefixCut(lines, PreorderAll(gen, items[..k], level), PreorderAll(gen, items, level));
        return;
      }
      r := RebuildRec(gen, r, items[k], level);
      CutThrice(lines, PreorderAll(gen, items[..k], level), Preorder(gen, items[k], level));
      assert items[..k + 1][..k] == items[..k];
    }
    assert items[..|items|] == items;
  }

  lemma PrefixCut<T>(a: seq<Line<T>>, b: seq<Line<T>>, c: seq<Line<T>>)
    requires b <= c && |Cut(a + b)| >= MAX_LINES
    ensures Cut(a + c) == Cut(a + b)
  {
    assert c == b + c[|b|..];
    assert a + c == a + b + c[|b|..];
    CutMore(a + b, c[|b|..]);
  }

  // ---------------------------------------------------------------- what the walk visits

  /** Line `i` is a root on level `base`, or hangs below an earlier line. */
  ghost predicate Justified<T>(gen: Generator<T>, roots: seq<Option<T>>, base: nat, lines: seq<Line<T>>, i: nat)
    requires i < |lines|
  {
    || (lines[i].level == base && Some(lines[i].item) in roots)
    || exists j :: 0 <= j < i && lines[j].level + 1 == lines[i].level && Some(lines[i].item) in gen(Some(lines[j].item))
  }

  ghost predicate AllJustified<T>(gen: Generator<T>, roots: seq<Option<T>>, base: nat, lines: seq<Line<T>>) {
    forall i | 0 <= i < |lines| :: Justified(gen, roots, base, lines, i) && base <= lines[i].level < MAX_DEPTH
  }

  lemma JustifiedTogether<T>(gen: Generator<T>, roots: seq<Option<T>>, more: seq<Option<T>>, base: nat, a: seq<Line<T>>, b: seq<Line<T>>)
    requires AllJustified(gen, roots, base, a) && AllJustified(gen, more, base, b)
    ensures AllJustified(gen, roots + more, base, a + b)
  {
    hide Justified;
    assert [] + a + b == a + b && a + b + [] == a + b;
    forall i | 0 <= i < |a + b| ensures Justified(gen, roots + more, base, a + b, i) && base <= (a + b)[i].level < MAX_DEPTH {
      if i < |a| {
        JustifiedEarlier(gen, roots, roots + more, base, a, [], b, i);
      } else {
        JustifiedEarlier(gen, more, roots + more, base, b, a, [], i - |a|);
      }
    }
  }

  lemma JustifiedEarlier<T>(gen: Generator<T>, roots: seq<Option<T>>, all: seq<Option<T>>, base: nat, s: seq<Line<T>>, before: seq<Line<T>>, behind: seq<Line<T>>, i: nat)
    requires i < |s| && Justified(gen, roots, base, s, i) && forall r | r in roots :: r in all
    ensures Justified(gen, all, base, before + s + behind, |before| + i)
  {
    var t := before + s + behind;
    assert t[|before| + i] == s[i];
    if j :| 0 <= j < i && s[j].level + 1 == s[i].level && Some(s[i].item) in gen(Some(s[j].item)) {
      assert t[|before| + j] == s[j];
    }
  }

  lemma {:induction false} PreorderSound<T>(gen: Generator<T>, item: Option<T>, level: nat)
    ensures AllJustified(gen, [item], level, Preorder(gen, item, level))
    decreases MAX_DEPTH - level, 1, 0
  {
    if item.Some? && level < MAX_DEPTH {
      var head, below := [Line(level, item.value)], PreorderAll(gen, gen(item), level + 1);
      PreorderAllSound(gen, gen(item), level + 1);
      var lines := head + below;
      forall i | 0 <= i < |lines| ensures Justified(gen, [item], level, lines, i) && level <= lines[i].level < MAX_DEPTH {
        if i > 0 {
          assert lines[i] == below[i - 1] && Justified(gen, gen(item), level + 1, below, i - 1);
          if below[i - 1].level == level + 1 && Some(below[i - 1].item) in gen(item) {
            assert lines[0].level + 1 == lines[i].level && Some(lines[i].item) in gen(Some(lines[0].item));
          } else {
            var j :| 0 <= j < i - 1 && below[j].level + 1 == below[i - 1].level && Some(below[i - 1].item) in gen(Some(below[j].item));
            assert lines[j + 1] == below[j];
          }
        }
      }
    }
  }

  /** Every line of the walk is a given root, or hangs below an earlier line one level up; all are within the cut. */
  lemma {:induction false} PreorderAllSound<T>(gen: Generator<T>, items: seq<Option<T>>, level: nat)
    ensures AllJustified(gen, items, level, PreorderAll(gen, items, level))
    decreases MAX_DEPTH - level, 2, |items|
  {
    if items != [] {
      var n := |items| - 1;
      PreorderAllSound(gen, items[..n], level);
      PreorderSound(gen, items[n], level);
      JustifiedTogether(gen, items[..n], [items[n]], level, PreorderAll(gen, items[..n], level), Preorder(gen, items[n], level));
      assert items[..n] + [items[n]] == items;
    }
  }

  ghost predicate Complete<T>(gen: Generator<T>, lines: seq<Line<T>>) {
    forall l | l in lines :: forall x | x in gen(Some(l.item)) ::
      x.Some? && l.level + 1 < MAX_DEPTH ==> Line(l.level + 1, x.value) in lines
  }

  lemma {:induction false} PreorderComplete<T>(gen: Generator<T>, item: Option<T>, level: nat)
    ensures var lines := Preorder(gen, item, level);
      Complete(gen, lines) && (item.Some? && level < MAX_DEPTH ==> Line(level, item.value) in lines)
    decreases MAX_DEPTH - level, 1, 0
  {
    if item.Some? && level < MAX_DEPTH { PreorderAllComplete(gen, gen(item), level + 1); }
  }

  /** Before it is cut to length, the walk misses nothing: it holds every root and, below any of its lines, every item
      generated, down to the depth limit. */
  lemma {:induction false} PreorderAllComplete<T>(gen: Generator<T>, items: seq<Option<T>>, level: nat)
    ensures var lines := PreorderAll(gen, items, level);
      Complete(gen, lines) && (level < MAX_DEPTH ==> forall x | x in items && x.Some? :: Line(level, x.value) in lines)
    decreases MAX_DEPTH - level, 2, |items|
  {
    if items != [] {
      var n := |items| - 1;
      PreorderAllComplete(gen, items[..n], level);
      PreorderComplete(gen, items[n], level);
      assert items == items[..n] + [items[n]];
    }
  }

  // ---------------------------------------------------------------- the widget

  function Bounded(i: int, lower: int, upper: int): int {
    if i < lower then lower else if i > upper then upper else i
  }

  datatype Key = Up | Down | Other

  type Same<!T> = (T, T) -> bool

  /** The first line, from `k` on, that holds the same item. */
  ghost predicate FirstSame<T>(same: Same<T>, target: T, lines: seq<Line<T>>, k: int) {
    && 0 <= k < |lines| && same(target, lines[k].item)
    && forall j | 0 <= j < k :: !same(target, lines[j].item)
  }

  ghost predicate NoneSame<T>(same: Same<T>, target: T, lines: seq<Line<T>>) {
    forall j | 0 <= j < |lines| :: !same(target, lines[j].item)
  }

  class Widget<T> {
    var generator: Option<Generator<T>>
    var lines: seq<Line<T>>
    var activeLine: int

    constructor (generator: Option<Generator<T>>)
      ensures Valid() && lines == []
    {
      this.generator, lines, activeLine := generator, [], 0;
    }

    /** The key and character handlers index `lines` with `activeLine` whenever there are lines. */
    ghost predicate Valid()
      reads this
    {
      lines != [] ==> 0 <= activeLine < |lines|
    }

    method SetActiveLine(num: int, relative: bool)
      modifies this`activeLine
      ensures Valid()
      ensures activeLine == Bounded(if relative then old(activeLine) + num else num, 0, |lines| - 1)
    {
      activeLine := Bounded(if relative then activeLine + num else num, 0, |lines| - 1);
    }

    method ActiveItem() returns (item: Option<T>)
      ensures item == if lines == [] then None else Some(lines[Bounded(activeLine, 0, |lines| - 1)].item)
    {
      if |lines| == 0 { return None; }
      item := Some(lines[Bounded(activeLine, 0, |lines| - 1)].item);
    }

    /** Makes the first line with the same item active, if there is one. */
    method SetActiveItem(target: Option<T>, same: Option<Same<T>>) returns (found: bool)
      modifies this`activeLine
      ensures found ==> target.Some? && same.Some? && FirstSame(same.value, target.value, lines, activeLine)
      ensures !found ==> activeLine == old(activeLine)
      ensures !found && target.Some? && same.Some? ==> NoneSame(same.value, target.value, lines)
    {
      if target.None? || same.None? { return false; }
      for k := 0 to |lines|
        invariant forall j | 0 <= j < k :: !same.value(target.value, lines[j].item)
        invariant activeLine == old(activeLine)
      {
        if same.value(target.value, lines[k].item) {
          SetActiveLine(k, false);
          return true;
        }
      }
      return false;
    }

    /** Rebuild: the lines are the cut walk, and the active line is in range: the first one, or, when it is to be
        preserved, the first with the same item as before, or else the one with the same number. */
    method Rebuild(preserve: bool, same: Option<Same<T>>)
      requires Valid()
      modifies this`lines, this`activeLine
      ensures Valid()
      ensures lines == if generator.None? then [] else AllLines(generator.value)
      ensures generator.None? ==> activeLine == old(activeLine)
      ensures generator.Some? && !preserve ==> activeLine == Bounded(0, 0, |lines| - 1)
      ensures generator.Some? && preserve ==>
        if old(lines) != [] && same.Some? && !NoneSame(same.value, old(lines[activeLine]).item, lines)
        then FirstSame(same.value, old(lines[activeLine]).item, lines, activeLine)
        else activeLine == Bounded(old(activeLine), 0, |lines| - 1)
    {
      if generator.None? {
        lines := [];
        return;
      }
      var previousItem := ActiveItem();
      var previousLine := activeLine;
      ghost var walk := PreorderAll(generator.value, generator.value(None), 0);
      var newLines := RebuildAll(generator.value, [], generator.value(None), 0);
      assert [] + walk == walk;
      lines := newLines;
      if preserve {
        SetActiveLine(previousLine, false);
        var found := SetActiveItem(previousItem, same);
      } else {
        SetActiveLine(0, false);
      }
    }

    /** An arrow key moves the active line by one, stopping at both ends; any other key goes to the listener with the
        item on the active line. */
    method OnKey(key: Key) returns (heard: Option<T>)
      requires Valid()
      modifies this`activeLine
      ensures Valid() && (lines == [] || key.Other? ==> activeLine == old(activeLine))
      ensures heard == if key.Other? && lines != [] then Some(lines[activeLine].item) else None
      ensures lines != [] && key.Up? ==> activeLine == Bounded(old(activeLine) - 1, 0, |lines| - 1)
      ensures lines != [] && key.Down? ==> activeLine == Bounded(old(activeLine) + 1, 0, |lines| - 1)
    {
      if |lines| == 0 { return None; }
      match key
      case Up =>
        SetActiveLine(-1, true);
        return None;
      case Down =>
        SetActiveLine(1, true);
        return None;
      case Other =>
        return Some(lines[activeLine].item);
    }
  }
}
