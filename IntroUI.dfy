/**
  The integer logic of the intro screen: a pager with `Int.MAX_VALUE` pages
  that shows a fixed list of cards in a cycle, and a row of dots, one per
  card, whose click scrolls the shorter way around to the clicked card.
*/
module IntroUI {
  import opened Sequences
  import opened KotlinInt

  /** The intro shows five cards (water, rewards, notifications, stats, profile). */
  const CardCount := 5
  /** The pager starts on this page. */
  const StartPage := 1000
  /** `pageCount = Int.MAX_VALUE`; pages are 0 .. PageCount - 1. */
  const PageCount := 0x7fff_ffff

  /** `((page % items.size) + items.size) % items.size`: the card and dot of a page. */
  function WrapIndex(page: int, size: int): (r: int)
    requires size > 0
    ensures 0 <= r < size
  {
    Rem(Rem(page, size) + size, size)
  }

  /** The Kotlin expression computes the mathematical residue, also for negative pages. */
  lemma WrapIndexIsResidue(page: int, size: int)
    requires size > 0
    ensures WrapIndex(page, size) == page % size
  {
    var q, r := Div(page, size), Rem(page, size);
    if r >= 0 {
      ModUnique(r + size, size, 1, r);
      ModUnique(page, size, q, r);
    } else {
      ModUnique(r + size, size, 0, r + size);
      ModUnique(page, size, q - 1, r + size);
    }
  }

  /** The card list repeats with period `size`. */
  lemma WrapIndexPeriodic(page: int, size: int)
    requires size > 0
    ensures WrapIndex(page + size, size) == WrapIndex(page, size)
  {
    var q, r := page / size, page % size;
    assert page + size == size * (q + 1) + r;
    ModUnique(page + size, size, q + 1, r);
    WrapIndexIsResidue(page, size);
    WrapIndexIsResidue(page + size, size);
  }

  /** On the start page the first dot is selected. */
  lemma InitialSelectedDot()
    ensures WrapIndex(StartPage, CardCount) == 0
  {
  }

  /** `(x - y + size) % size` is the number of steps from `y` round to `x`. */
  lemma StepsRound(x: int, y: int, size: int)
    requires size > 0 && 0 <= x < size && 0 <= y < size
    ensures 0 <= Rem(x - y + size, size) < size && (y + Rem(x - y + size, size)) % size == x
  {
    var d := x - y;
    if d >= 0 {
      ModUnique(d + size, size, 1, d);
      ModUnique(x, size, 0, x);
    } else {
      ModUnique(d + size, size, 0, d + size);
      ModUnique(x + size, size, 1, x);
    }
  }

  /** `forward`: steps to the right from the selected dot to the clicked one. */
  function Forward(index: int, selected: int, size: int): (r: int)
    requires size > 0
    ensures 0 <= index < size && 0 <= selected < size ==> 0 <= r < size && (selected + r) % size == index
  {
    if 0 <= index < size && 0 <= selected < size then
      StepsRound(index, selected, size);
      Rem(index - selected + size, size)
    else
      Rem(index - selected + size, size)
  }

  /** `backward`: steps to the left from the selected dot to the clicked one. */
  function Backward(index: int, selected: int, size: int): (r: int)
    requires size > 0
    ensures 0 <= index < size && 0 <= selected < size ==> 0 <= r < size && (index + r) % size == selected
  {
    if 0 <= index < size && 0 <= selected < size then
      StepsRound(selected, index, size);
      Rem(selected - index + size, size)
    else
      Rem(selected - index + size, size)
  }

  /**
    Both distances lie in [0, size); each is the plain difference when that
    is not negative and the difference plus `size` otherwise, so for
    distinct dots they go once around the cycle together.
  */
  lemma ForwardBackward(index: int, selected: int, size: int)
    requires size > 0 && 0 <= index < size && 0 <= selected < size
    ensures Forward(index, selected, size) ==
            if selected <= index then index - selected else index - selected + size
    ensures Backward(index, selected, size) ==
            if index <= selected then selected - index else selected - index + size
    ensures 0 <= Forward(index, selected, size) < size && 0 <= Backward(index, selected, size) < size
    ensures index != selected ==> Forward(index, selected, size) + Backward(index, selected, size) == size
  {
    var d := index - selected;
    if d >= 0 {
      ModUnique(d + size, size, 1, d);
    } else {
      ModUnique(d + size, size, 0, d + size);
    }
    if -d >= 0 {
      ModUnique(-d + size, size, 1, -d);
    } else {
      ModUnique(-d + size, size, 0, -d + size);
    }
  }

  /**
    `onDotClick(index)`: None when the clicked dot is already selected (the
    handler returns early), otherwise the page the pager animates to.
  */
  function DotClickTarget(currentPage: int, index: int, size: int): (r: Option<int>)
    requires size > 0 && 0 <= index < size
    ensures r == None <==> index == WrapIndex(currentPage, size)
  {
    var selected := WrapIndex(currentPage, size);
    if index == selected then None
    else
      var forward := Forward(index, selected, size);
      var backward := Backward(index, selected, size);
      Some(if forward <= backward then currentPage + forward else currentPage - backward)
  }

  /** Residue of a difference, for residues `i` and `j` of its two operands. */
  lemma DifferenceResidue(p: int, c: int, n: int)
    requires n > 0
    ensures (p - c) % n == if c % n <= p % n then p % n - c % n else p % n - c % n + n
  {
    var a, i := p / n, p % n;
    var b, j := c / n, c % n;
    assert p - c == n * (a - b) + (i - j);
    if j <= i {
      ModUnique(p - c, n, a - b, i - j);
    } else {
      assert p - c == n * (a - b - 1) + (i - j + n);
      ModUnique(p - c, n, a - b - 1, i - j + n);
    }
  }

  /** A page `index - selected` pages away from a page with residue `selected`, give or take one period, has residue `index`. */
  lemma ShiftedResidue(c: int, selected: int, index: int, n: int, t: int)
    requires n > 0 && 0 <= index < n && c % n == selected
    requires t == c + (index - selected) || t == c + (index - selected) + n || t == c + (index - selected) - n
    ensures t % n == index
  {
    var q := c / n;
    assert c == n * q + selected;
    if t == c + (index - selected) {
      ModUnique(t, n, q, index);
    } else if t == c + (index - selected) + n {
      assert t == n * (q + 1) + index;
      ModUnique(t, n, q + 1, index);
    } else {
      assert t == n * (q - 1) + index;
      ModUnique(t, n, q - 1, index);
    }
  }

  /** The target page shows the clicked card. */
  lemma DotClickLandsOnDot(currentPage: int, index: int, size: int)
    requires size > 0 && 0 <= index < size
    requires DotClickTarget(currentPage, index, size).Some?
    ensures WrapIndex(DotClickTarget(currentPage, index, size).value, size) == index
  {
    var target := DotClickTarget(currentPage, index, size).value;
    var selected := WrapIndex(currentPage, size);
    WrapIndexIsResidue(currentPage, size);
    WrapIndexIsResidue(target, size);
    ForwardBackward(index, selected, size);
    ShiftedResidue(currentPage, selected, index, size, target);
  }

  /**
    The pager moves by the shorter of the two distances, to the right on a
    tie, and never further than half way around.
  */
  lemma DotClickShortestDirection(currentPage: int, index: int, size: int)
    requires size > 0 && 0 <= index < size
    requires DotClickTarget(currentPage, index, size).Some?
    ensures var selected := WrapIndex(currentPage, size);
            var f, b := Forward(index, selected, size), Backward(index, selected, size);
            var target := DotClickTarget(currentPage, index, size).value;
            && Abs(target - currentPage) == Min(f, b)
            && (target > currentPage <==> f <= b)
            && 2 * Abs(target - currentPage) <= size
  {
    ForwardBackward(index, WrapIndex(currentPage, size), size);
  }

  /** A number whose residue is `f` is at least `f` away from 0 upwards, or `n - f` downwards. */
  lemma ResidueDistance(x: int, n: int, f: int)
    requires n > 0 && 0 <= f < n && x % n == f
    ensures x >= 0 ==> x >= f
    ensures x < 0 ==> -x >= n - f
  {
    var q := x / n;
    assert x == n * q + f;
    MulSign(n, q);
    MulSign(n, -q);
  }

  /** No page showing the clicked card is closer to the current page than the target. */
  lemma DotClickIsNearest(currentPage: int, index: int, size: int, page: int)
    requires size > 0 && 0 <= index < size
    requires DotClickTarget(currentPage, index, size).Some?
    requires WrapIndex(page, size) == index
    ensures Abs(DotClickTarget(currentPage, index, size).value - currentPage) <= Abs(page - currentPage)
  {
    var selected := WrapIndex(currentPage, size);
    ForwardBackward(index, selected, size);
    DotClickShortestDirection(currentPage, index, size);
    WrapIndexIsResidue(currentPage, size);
    WrapIndexIsResidue(page, size);
    DifferenceResidue(page, currentPage, size);
    ResidueDistance(page - currentPage, size, Forward(index, selected, size));
  }

  /** Away from both ends of the pager the target is a valid page, so no Int arithmetic overflows. */
  lemma DotClickTargetInRange(currentPage: int, index: int, size: int)
    requires size > 0 && 0 <= index < size
    requires size <= currentPage < PageCount - size
    requires DotClickTarget(currentPage, index, size).Some?
    ensures 0 <= DotClickTarget(currentPage, index, size).value < PageCount
  {
    ForwardBackward(index, WrapIndex(currentPage, size), size);
  }
}
