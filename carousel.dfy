/**
 * The image carousel of frontend/src/pages/PropertyDetails.jsx: the index of
 * the image on show, moved by the previous and next arrows (which wrap
 * around) and set by the thumbnail strip.
 */
module Carousel {
  /** At most this many thumbnails are shown. */
  const ThumbnailCount: nat := 6

  /** The next arrow's update: the last index wraps to 0. */
  function NextIndex(i: int, n: nat): int {
    if i == n - 1 then 0 else i + 1
  }

  /** The previous arrow's update: 0 wraps to the last index. */
  function PrevIndex(i: int, n: nat): int {
    if i == 0 then n - 1 else i - 1
  }

  /** Both arrows keep an index of a non-empty gallery inside it. */
  lemma ArrowsStayInRange(i: int, n: nat)
    requires 0 <= i < n
    ensures 0 <= NextIndex(i, n) < n
    ensures 0 <= PrevIndex(i, n) < n
  {
  }

  /** Each arrow undoes the other. */
  lemma ArrowsInverse(i: int, n: nat)
    requires 0 <= i < n
    ensures PrevIndex(NextIndex(i, n), n) == i
    ensures NextIndex(PrevIndex(i, n), n) == i
  {
  }

  /** The index after `k` presses of the next arrow. */
  function NextTimes(i: int, n: nat, k: nat): int {
    if k == 0 then i else NextIndex(NextTimes(i, n, k - 1), n)
  }

  /** Two different multiples of `n` are at least `n` apart. */
  lemma DistinctMultiplesApart(q: int, q': int, n: int)
    requires n > 0
    ensures q > q' ==> (q - q') * n >= n
    ensures q < q' ==> (q' - q) * n >= n
  {
    var d := if q > q' then q - q' else q' - q;
    assert d * n == (d - 1) * n + n;
    if d >= 1 {
      assert (d - 1) * n >= 0;
    }
  }

  /** Division with remainder has one answer: a remainder in range fixes `x % n`. */
  lemma ModUnique(x: int, n: int, q: int, r: int)
    requires n > 0 && 0 <= r < n && x == q * n + r
    ensures x % n == r
  {
    var q', r' := x / n, x % n;
    assert (q - q') * n == r' - r;
    DistinctMultiplesApart(q, q', n);
  }

  /** Adding one to a number steps its remainder the way the next arrow steps the index. */
  lemma ModStep(a: nat, n: nat)
    requires n > 0
    ensures (a + 1) % n == NextIndex(a % n, n)
  {
    var q, r := a / n, a % n;
    if r == n - 1 {
      ModUnique(a + 1, n, q + 1, 0);
    } else {
      ModUnique(a + 1, n, q, r + 1);
    }
  }

  /** `k` presses of the next arrow advance the index by `k` modulo the gallery size. */
  lemma {:induction false} NextTimesModulo(i: int, n: nat, k: nat)
    requires 0 <= i < n
    ensures NextTimes(i, n, k) == (i + k) % n
  {
    if k == 0 {
      ModUnique(i, n, 0, i);
    } else {
      NextTimesModulo(i, n, k - 1);
      ModStep(i + k - 1, n);
    }
  }

  /** Pressing the next arrow once per image brings the carousel back to where it was. */
  lemma FullTurn(i: int, n: nat)
    requires 0 <= i < n
    ensures NextTimes(i, n, n) == i
  {
    NextTimesModulo(i, n, n);
    ModUnique(i + n, n, 1, i);
  }

  /** The component's `currentImageIndex` over a gallery of `count` images. */
  class ImageCarousel {
    var current: int
    const count: nat

    ghost predicate Valid()
      reads this
    {
      count == 0 || 0 <= current < count
    }

    /** The index starts at 0. */
    constructor (count: nat)
      ensures Valid() && this.count == count && current == 0
    {
      this.count := count;
      current := 0;
    }

    /** The next arrow, rendered only when there is more than one image. */
    method Next()
      requires Valid() && count > 1
      modifies this
      ensures Valid()
      ensures current == NextIndex(old(current), count)
      ensures current == (old(current) + 1) % count
    {
      NextTimesModulo(current, count, 1);
      current := if current == count - 1 then 0 else current + 1;
    }

    /** The previous arrow, rendered only when there is more than one image. */
    method Prev()
      requires Valid() && count > 1
      modifies this
      ensures Valid()
      ensures current == PrevIndex(old(current), count)
      ensures (current + 1) % count == old(current)
    {
      current := if current == 0 then count - 1 else current - 1;
      NextTimesModulo(current, count, 1);
    }

    /** A thumbnail click; only the first six images have one. */
    method SelectThumbnail(position: nat)
      requires Valid() && position < count && position < ThumbnailCount
      modifies this
      ensures Valid() && current == position
    {
      current := position;
    }
  }
}
