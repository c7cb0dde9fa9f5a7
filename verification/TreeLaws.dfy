/** The order of the tree widget's lines: under each line stands the block of what its item generates, in the order in
    which the generator gives it, and the block ends where the level falls back. This leaves one walk. */
module TreeLaws {
  import opened Options
  import opened Tree

  /** The items that are not nil, in order. */
  function Somes<T>(items: seq<Option<T>>): seq<T> {
    if items == [] then []
    else
      var last := items[|items| - 1];
      Somes(items[..|items| - 1]) + (if last.Some? then [last.value] else [])
  }

  /** The items of the lines on one level, in order. */
  function AtLevel<T>(lines: seq<Line<T>>, level: nat): seq<T> {
    if lines == [] then []
    else
      var last := lines[|lines| - 1];
      AtLevel(lines[..|lines| - 1], level) + (if last.level == level then [last.item] else [])
  }

  function Under<T>(gen: Generator<T>, items: seq<Option<T>>, level: nat): seq<T> {
    if level < MAX_DEPTH then Somes(items) else []
  }

  ghost predicate NotAbove<T>(lines: seq<Line<T>>, level: nat) {
    forall i | 0 <= i < |lines| :: lines[i].level >= level
  }

  /** Lines `j + 1` to `k` are what stands under line `j`, its own items in order among them. */
  ghost predicate Block<T>(gen: Generator<T>, lines: seq<Line<T>>, j: nat, k: nat) {
    && j < k <= |lines|
    && NotAbove(lines[j + 1..k], lines[j].level + 1)
    && (k < |lines| ==> lines[k].level <= lines[j].level)
    && AtLevel(lines[j + 1..k], lines[j].level + 1) == Under(gen, gen(Some(lines[j].item)), lines[j].level + 1)
  }

  lemma {:induction false} AtLevelJoins<T>(a: seq<Line<T>>, b: seq<Line<T>>, level: nat)
    ensures AtLevel(a + b, level) == AtLevel(a, level) + AtLevel(b, level)
    decreases |b|
  {
    if b == [] {
      assert a + b == a;
    } else {
      AtLevelJoins(a, b[..|b| - 1], level);
      assert (a + b)[..|a + b| - 1] == a + b[..|b| - 1];
    }
  }

  lemma {:induction false} NoneAtLevel<T>(lines: seq<Line<T>>, level: nat)
    requires NotAbove(lines, level + 1)
    ensures AtLevel(lines, level) == []
    decreases |lines|
  {
    if lines != [] { NoneAtLevel(lines[..|lines| - 1], level); }
  }

  lemma {:induction false} LevelsOf<T>(gen: Generator<T>, items: seq<Option<T>>, level: nat)
    ensures NotAbove(PreorderAll(gen, items, level), level)
    decreases MAX_DEPTH - level, 2, |items|
  {
    if items != [] {
      LevelsOf(gen, items[..|items| - 1], level);
      LevelsOfOne(gen, items[|items| - 1], level);
    }
  }

  lemma {:induction false} LevelsOfOne<T>(gen: Generator<T>, item: Option<T>, level: nat)
    ensures NotAbove(Preorder(gen, item, level), level)
    decreases MAX_DEPTH - level, 1, 0
  {
    if item.Some? && level < MAX_DEPTH { LevelsOf(gen, gen(item), level + 1); }
  }

  // The lines of one item on its own level: itself alone.
  lemma RootOf<T>(gen: Generator<T>, item: Option<T>, level: nat)
    ensures AtLevel(Preorder(gen, item, level), level)
         == if item.Some? && level < MAX_DEPTH then [item.value] else []
  {
    hide PreorderAll;
    if item.Some? && level < MAX_DEPTH {
      var head, below := [Line(level, item.value)], PreorderAll(gen, gen(item), level + 1);
      LevelsOf(gen, gen(item), level + 1);
      NoneAtLevel(below, level);
      AtLevelJoins(head, below, level);
      assert head[..0] == [] && AtLevel(head, level) == [] + [item.value];
    }
  }

  /** The lines on the first level are the items walked, in their order, without the nil ones. */
  lemma {:induction false} RootsInOrder<T>(gen: Generator<T>, items: seq<Option<T>>, level: nat)
    ensures AtLevel(PreorderAll(gen, items, level), level) == Under(gen, items, level)
    decreases |items|
  {
    hide Preorder;
    if items != [] {
      var init, last := items[..|items| - 1], items[|items| - 1];
      RootsInOrder(gen, init, level);
      RootOf(gen, last, level);
      AtLevelJoins(PreorderAll(gen, init, level), Preorder(gen, last, level), level);
    }
  }

  // A block stays one between other lines, if what follows is not below it.
  lemma BlockBetween<T>(gen: Generator<T>, before: seq<Line<T>>, lines: seq<Line<T>>, behind: seq<Line<T>>, j: nat, k: nat)
    requires Block(gen, lines, j, k) && (behind != [] ==> behind[0].level <= lines[j].level)
    ensures Block(gen, before + lines + behind, |before| + j, |before| + k)
  {
    hide AtLevel, Under, NotAbove;
    var all, n := before + lines + behind, |before|;
    assert all[n + j + 1..n + k] == lines[j + 1..k];
    assert all[n + j] == lines[j];
    if n + k < |all| {
      assert all[n + k] == if k < |lines| then lines[k] else behind[0];
    }
  }

  /** Every line of the walk has its block. */
  lemma {:induction false} EveryBlock<T>(gen: Generator<T>, items: seq<Option<T>>, level: nat, j: nat) returns (k: nat)
    requires j < |PreorderAll(gen, items, level)|
    ensures Block(gen, PreorderAll(gen, items, level), j, k)
    decreases MAX_DEPTH - level, 2, |items|
  {
    hide Block, NotAbove;
    var init, last := items[..|items| - 1], items[|items| - 1];
    var a, b := PreorderAll(gen, init, level), Preorder(gen, last, level);
    if j < |a| {
      k := EveryBlock(gen, init, level, j);
      LineLevel(gen, init, level, j);
      BlockBetween(gen, [], a, b, j, k);
      assert [] + a + b == a + b;
    } else {
      var k' := BlockOfOne(gen, last, level, j - |a|);
      BlockBetween(gen, a, b, [], j - |a|, k');
      assert a + b + [] == a + b;
      k := |a| + k';
    }
  }

  lemma LineLevel<T>(gen: Generator<T>, items: seq<Option<T>>, level: nat, j: nat)
    requires j < |PreorderAll(gen, items, level)|
    ensures PreorderAll(gen, items, level)[j].level >= level
  {
    LevelsOf(gen, items, level);
  }

  lemma {:induction false} BlockOfOne<T>(gen: Generator<T>, item: Option<T>, level: nat, j: nat) returns (k: nat)
    requires j < |Preorder(gen, item, level)|
    ensures Block(gen, Preorder(gen, item, level), j, k)
    decreases MAX_DEPTH - level, 1, 0
  {
    hide Block, NotAbove;
    var head, below := [Line(level, item.value)], PreorderAll(gen, gen(item), level + 1);
    if j == 0 {
      k := 1 + |below|;
      HeadBlock(gen, item.value, level);
    } else {
      var k' := EveryBlock(gen, gen(item), level + 1, j - 1);
      BlockBetween(gen, head, below, [], j - 1, k');
      assert head + below + [] == head + below;
      k := 1 + k';
    }
  }

  lemma HeadBlock<T>(gen: Generator<T>, item: T, level: nat)
    requires level < MAX_DEPTH
    ensures var below := PreorderAll(gen, gen(Some(item)), level + 1);
            Block(gen, [Line(level, item)] + below, 0, 1 + |below|)
  {
    hide PreorderAll, AtLevel, Under;
    var below := PreorderAll(gen, gen(Some(item)), level + 1);
    RootsInOrder(gen, gen(Some(item)), level + 1);
    LevelsOf(gen, gen(Some(item)), level + 1);
    assert ([Line(level, item)] + below)[1..1 + |below|] == below;
  }
}
