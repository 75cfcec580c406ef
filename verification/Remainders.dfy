/** The remainder of the source's `%` by a positive divisor, with the facts about multiples that
    bucket arithmetic needs. It is computed by repeated subtraction, which keeps every proof linear. */
module Remainders {

  function Mod(t: int, w: int): (r: int)
    requires w > 0
    ensures 0 <= r < w
    decreases if t < 0 then w - t else t
  {
    if t < 0 then Mod(t + w, w) else if t < w then t else Mod(t - w, w)
  }

  /** `t` rounded down to a multiple of `w`. */
  function Floor(t: int, w: int): (r: int)
    requires w > 0
    ensures r <= t < r + w
  {
    t - Mod(t, w)
  }

  predicate Divides(w: int, t: int)
    requires w > 0
  {
    Mod(t, w) == 0
  }

  /** It is the built-in remainder. */
  lemma {:induction false} ModIsRemainder(t: int, w: int)
    requires w > 0
    ensures Mod(t, w) == t % w
    decreases if t < 0 then w - t else t
  {
    if t < 0 {
      ModIsRemainder(t + w, w);
      RemainderShift(t, w);
    } else if t >= w {
      ModIsRemainder(t - w, w);
      RemainderShift(t - w, w);
    }
  }

  lemma RemainderShift(t: int, w: int)
    requires w > 0
    ensures (t + w) % w == t % w
  {
    var q, r := t / w, t % w;
    var q', r' := (t + w) / w, (t + w) % w;
    assert t == q * w + r && t + w == q' * w + r';
    var d := q' - q - 1;
    assert d * w == q' * w - q * w - w;
    SmallMultiple(d, w);
  }

  lemma SmallMultiple(d: int, w: int)
    requires w > 0 && -w < d * w < w
    ensures d == 0
  {}

  lemma ModShift(t: int, w: int)
    requires w > 0
    ensures Mod(t + w, w) == Mod(t, w)
  {}

  lemma {:induction false} ModOfSum(a: int, b: int, w: int)
    requires w > 0 && Divides(w, a)
    ensures Mod(a + b, w) == Mod(b, w)
    decreases if a < 0 then w - a else a
  {
    if a < 0 {
      ModShift(a + b, w);
      ModOfSum(a + w, b, w);
    } else if a >= w {
      ModShift(a - w + b, w);
      ModOfSum(a - w, b, w);
    }
  }

  lemma {:induction false} FloorIsMultiple(t: int, w: int)
    requires w > 0
    ensures Divides(w, Floor(t, w))
    decreases if t < 0 then w - t else t
  {
    if t < 0 {
      FloorIsMultiple(t + w, w);
      ModShift(Floor(t, w), w);
    } else if t >= w {
      FloorIsMultiple(t - w, w);
      ModShift(Floor(t - w, w), w);
    }
  }

  /** The only multiple of `w` in the `w` numbers up to `t` is the one `t` rounds down to. */
  lemma {:induction false} FloorUnique(s: int, t: int, w: int)
    requires w > 0 && Divides(w, s) && s <= t < s + w
    ensures s == Floor(t, w)
  {
    ModOfSum(s, t - s, w);
  }

  lemma FloorMonotone(a: int, b: int, w: int)
    requires w > 0 && a <= b
    ensures Floor(a, w) <= Floor(b, w)
  {
    var f := Floor(a, w);
    FloorIsMultiple(a, w);
    ModOfSum(f, b - f, w);
    ModAtMost(b - f, w);
  }

  lemma {:induction false} ModAtMost(t: int, w: int)
    requires w > 0 && t >= 0
    ensures Mod(t, w) <= t
  {}

  lemma {:induction false} DividesMultiple(w: int, big: int, t: int)
    requires w > 0 && big > 0 && Divides(w, big) && Divides(big, t)
    ensures Divides(w, t)
    decreases if t < 0 then big - t else t
  {
    if t < 0 {
      DividesMultiple(w, big, t + big);
      ModOfSum(big, t, w);
    } else if t >= big {
      DividesMultiple(w, big, t - big);
      ModOfSum(big, t - big, w);
    }
  }

  /** Rounding down to multiples of a multiple goes at least as far down. */
  lemma FloorOfMultiple(t: int, w: int, big: int)
    requires w > 0 && big > 0 && Divides(w, big)
    ensures Floor(t, big) <= Floor(t, w)
  {
    FloorIsMultiple(t, big);
    DividesMultiple(w, big, Floor(t, big));
    FloorMonotone(Floor(t, big), t, w);
  }

  /** Between multiples of `w` nothing is lost: a span of `w` from a multiple stays within one cell of
      any multiple of `w`. */
  lemma CellHoldsSpan(s: int, w: int, big: int)
    requires w > 0 && big > 0 && Divides(w, big) && Divides(w, s)
    ensures s + w <= Floor(s, big) + big
  {
    var f := Floor(s, big);
    FloorIsMultiple(s, big);
    DividesMultiple(w, big, f);
    ModOfSum(f, big, w);
    var next := f + big;
    if s + w > next {
      FloorUnique(s, next, w);
      assert false;
    }
  }

  lemma {:induction false} TimesDivides(k: nat, w: int)
    requires w > 0
    ensures Divides(w, k * w)
  {
    if k > 0 {
      TimesDivides(k - 1, w);
      assert k * w == (k - 1) * w + w;
      ModShift((k - 1) * w, w);
    }
  }

  /** Rounding down in two steps is rounding down to the wider multiple. */
  lemma FloorNested(start: int, w: int, big: int)
    requires w > 0 && big > 0 && Divides(w, big)
    ensures Floor(Floor(start, w), big) == Floor(start, big)
  {
    FloorOfMultiple(start, w, big);
    FloorIsMultiple(start, big);
    FloorUnique(Floor(start, big), Floor(start, w), big);
  }

  lemma DividesItself(w: int)
    requires w > 0
    ensures Divides(w, w)
  {}
}
