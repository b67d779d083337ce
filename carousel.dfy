/**
 * The image carousel of `src/pages/Home.js`. Its one piece of state is
 * `currentIndex`, which starts at 0; the arrow buttons (and the page's
 * three-second timer, which calls the same handler as the right arrow)
 * replace it with `(i + 1) % n` or `(i - 1 + n) % n`, where `n` is the
 * number of images and `%` is JavaScript's remainder.
 */
module Carousel {
  import opened JsValue

  /** The page's `images` array has three entries. */
  const ImageCount := 3

  /** The initial `currentIndex`. */
  const Start := 0

  /** JavaScript's `a % b` for a positive divisor: the remainder takes the sign of `a`. */
  function Rem(a: int, b: int): (r: int)
    requires b > 0
    ensures a >= 0 ==> 0 <= r < b
    ensures a >= 0 ==> r == a % b
    ensures a < 0 ==> -b < r <= 0
  {
    if a >= 0 then a % b else -((-a) % b)
  }

  /** `handleNext`'s updater. */
  function Next(i: int, n: int): int
    requires n > 0
  {
    Rem(i + 1, n)
  }

  /** `handlePrev`'s updater. */
  function Prev(i: int, n: int): int
    requires n > 0
  {
    Rem(i - 1 + n, n)
  }

  /** On an index of the carousel, the right arrow moves one slide on and wraps from the last to the first. */
  lemma NextInRange(i: int, n: int)
    requires n > 0 && 0 <= i < n
    ensures 0 <= Next(i, n) < n
    ensures Next(i, n) == if i == n - 1 then 0 else i + 1
  {
  }

  /** On an index of the carousel, the left arrow moves one slide back and wraps from the first to the last. */
  lemma PrevInRange(i: int, n: int)
    requires n > 0 && 0 <= i < n
    ensures 0 <= Prev(i, n) < n
    ensures Prev(i, n) == if i == 0 then n - 1 else i - 1
  {
  }

  /** The left arrow undoes the right arrow, and the right arrow undoes the left one. */
  lemma PrevUndoesNext(i: int, n: int)
    requires n > 0 && 0 <= i < n
    ensures Prev(Next(i, n), n) == i
    ensures Next(Prev(i, n), n) == i
  {
    NextInRange(i, n);
    PrevInRange(i, n);
    NextInRange(Prev(i, n), n);
    PrevInRange(Next(i, n), n);
  }

  /** The button presses the carousel can receive. */
  datatype Press = Forward | Back

  /** The index after a sequence of presses, applied in order. */
  function Run(i: int, n: int, presses: seq<Press>): int
    requires n > 0
    decreases |presses|
  {
    if presses == [] then i
    else Run(if presses[0] == Forward then Next(i, n) else Prev(i, n), n, presses[1..])
  }

  /** From any index of the carousel, whatever the presses, the index stays a valid slide. */
  lemma {:induction false} RunStaysInRange(i: int, n: int, presses: seq<Press>)
    requires n > 0 && 0 <= i < n
    ensures 0 <= Run(i, n, presses) < n
    decreases |presses|
  {
    if presses != [] {
      NextInRange(i, n);
      PrevInRange(i, n);
      RunStaysInRange(if presses[0] == Forward then Next(i, n) else Prev(i, n), n, presses[1..]);
    }
  }

  /** Starting from 0, the page only ever shows one of its images. */
  lemma ReachableIndexValid(presses: seq<Press>)
    ensures 0 <= Run(Start, ImageCount, presses) < ImageCount
  {
    RunStaysInRange(Start, ImageCount, presses);
  }

  /** `k` presses of the right arrow. */
  function Forwards(k: nat): (ps: seq<Press>)
    ensures |ps| == k && forall j :: 0 <= j < k ==> ps[j] == Forward
  {
    if k == 0 then [] else [Forward] + Forwards(k - 1)
  }

  /** Presses applied one list after another. */
  lemma {:induction false} RunAppend(i: int, n: int, ps: seq<Press>, qs: seq<Press>)
    requires n > 0
    ensures Run(i, n, ps + qs) == Run(Run(i, n, ps), n, qs)
    decreases |ps|
  {
    if ps != [] {
      assert (ps + qs)[0] == ps[0] && (ps + qs)[1..] == ps[1..] + qs;
      RunAppend(if ps[0] == Forward then Next(i, n) else Prev(i, n), n, ps[1..], qs);
    } else {
      assert ps + qs == qs;
    }
  }

  /** Before the last slide is reached, `k` presses of the right arrow move exactly `k` slides on. */
  lemma {:induction false} ForwardsAdvance(i: int, n: int, k: nat)
    requires n > 0 && 0 <= i && i + k < n
    ensures Run(i, n, Forwards(k)) == i + k
    decreases k
  {
    if k > 0 {
      NextInRange(i, n);
      assert Forwards(k)[1..] == Forwards(k - 1);
      ForwardsAdvance(i + 1, n, k - 1);
    }
  }

  /** As many right-arrow presses as there are images bring the carousel back to where it was. */
  lemma FullTurn(i: int, n: int)
    requires n > 0 && 0 <= i < n
    ensures Run(i, n, Forwards(n)) == i
  {
    var toLast, wrap, back := Forwards(n - 1 - i), Forwards(1), Forwards(i);
    assert Forwards(n) == toLast + wrap + back;
    RunAppend(i, n, toLast + wrap, back);
    RunAppend(i, n, toLast, wrap);
    ForwardsAdvance(i, n, n - 1 - i);
    NextInRange(n - 1, n);
    assert Run(n - 1, n, wrap) == Run(0, n, []) == 0;
    ForwardsAdvance(0, n, i);
  }

  /** `` `Slide ${currentIndex + 1}` ``: the image's alternative text. */
  function SlideLabel(i: int): string
  {
    "Slide " + StringOf(Int(i + 1))
  }

  /** The label counts slides from 1: after `Slide ` it reads back as the index plus one, between 1 and `n`. */
  lemma SlideLabelNumber(i: int, n: int)
    requires n > 0 && 0 <= i < n
    ensures SlideLabel(i)[..6] == "Slide "
    ensures Text.ParseIntText(SlideLabel(i)[6..]) == Wrappers.Some(i + 1) && 1 <= i + 1 <= n
  {
    StringOfInt(i + 1);
    assert SlideLabel(i)[6..] == StringOf(Int(i + 1));
  }
}
