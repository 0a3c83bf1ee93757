/**
 * The testimonial slider: a cyclic cursor over a fixed, non-empty list of
 * quotes, manual previous/next navigation and one auto-advance interval.
 */
module Testimonials {
  import opened Wrappers

  datatype Testimonial = Testimonial(quote: string, who: string)

  /** A handle returned by the host's `setInterval`; such handles are always positive. */
  type Handle = h: int | h > 0 witness 1

  /** `nextTestimonial`'s index step: `(i + 1) % n`. */
  function Next(i: int, n: int): (r: int)
    requires 0 <= i < n
    ensures 0 <= r < n
    ensures r == if i == n - 1 then 0 else i + 1
  {
    (i + 1) % n
  }

  /** `prevTestimonial`'s index step: `(i - 1 + n) % n`. */
  function Prev(i: int, n: int): (r: int)
    requires 0 <= i < n
    ensures 0 <= r < n
    ensures r == if i == 0 then n - 1 else i - 1
  {
    (i - 1 + n) % n
  }

  /** `prev` then `next` is the identity. */
  lemma NextUndoesPrev(i: int, n: int)
    requires 0 <= i < n
    ensures Next(Prev(i, n), n) == i
  {
  }

  /** `next` then `prev` is the identity. */
  lemma PrevUndoesNext(i: int, n: int)
    requires 0 <= i < n
    ensures Prev(Next(i, n), n) == i
  {
  }

  /** The index after `k` consecutive calls of `nextTestimonial`. */
  function Advance(i: int, n: int, k: nat): (r: int)
    requires 0 <= i < n
    ensures 0 <= r < n
  {
    if k == 0 then i else Next(Advance(i, n, k - 1), n)
  }

  /** Within one lap, `k` steps forward land `k` places on, wrapped once past the end. */
  lemma {:induction false} AdvanceWithinLap(i: int, n: int, k: nat)
    requires 0 <= i < n && k <= n
    ensures Advance(i, n, k) == if i + k < n then i + k else i + k - n
  {
    if k > 0 {
      AdvanceWithinLap(i, n, k - 1);
    }
  }

  /** `n` calls of `nextTestimonial` return the cursor to where it started. */
  lemma FullLap(i: int, n: int)
    requires 0 <= i < n
    ensures Advance(i, n, n) == i
  {
    AdvanceWithinLap(i, n, n);
  }

  /** Stepping `a` then `b` times is stepping `a + b` times. */
  lemma {:induction false} AdvanceAdds(i: int, n: int, a: nat, b: nat)
    requires 0 <= i < n
    ensures Advance(Advance(i, n, a), n, b) == Advance(i, n, a + b)
  {
    if b > 0 {
      AdvanceAdds(i, n, a, b - 1);
    }
  }

  /** Any whole number of laps returns the cursor to where it started. */
  lemma {:induction false} WholeLaps(i: int, n: int, laps: nat)
    requires 0 <= i < n
    ensures Advance(i, n, laps * n) == i
  {
    if laps > 0 {
      calc {
        Advance(i, n, laps * n);
        { assert laps * n == (laps - 1) * n + n; }
        Advance(i, n, (laps - 1) * n + n);
        { AdvanceAdds(i, n, (laps - 1) * n, n); }
        Advance(Advance(i, n, (laps - 1) * n), n, n);
        { WholeLaps(i, n, laps - 1); }
        Advance(i, n, n);
        { FullLap(i, n); }
        i;
      }
    }
  }

  /** The host's intervals that are registered and not yet cleared, as far as the slider knows. */
  function Live(timer: Option<Handle>): set<Handle> {
    if timer.Some? then {timer.value} else {}
  }

  class Slider {
    const testimonials: seq<Testimonial>
    var index: int          // tIndex
    var quoteText: string   // #quoteText's text
    var quoteWho: string    // #quoteWho's text
    var timer: Option<Handle>  // tTimer
    var live: set<Handle>      // the host's uncleared intervals that call nextTestimonial

    /** The cursor is in range, and the only interval still firing is the one `timer` holds. */
    ghost predicate Valid()
      reads this
    {
      0 <= index < |testimonials| && live == Live(timer)
    }

    /**
     * The page as loaded: the cursor at 0, no interval yet.  Nothing is
     * rendered here; the quote slots keep the markup's own text.
     */
    constructor (list: seq<Testimonial>, text0: string, who0: string)
      requires |list| > 0
      ensures Valid()
      ensures testimonials == list && index == 0 && timer == None
      ensures quoteText == text0 && quoteWho == who0
    {
      testimonials := list;
      index := 0;
      quoteText, quoteWho := text0, who0;
      timer := None;
      live := {};
    }

    /** `renderTestimonial` */
    method Render()
      requires Valid()
      modifies this
      ensures Valid() && index == old(index) && timer == old(timer) && live == old(live)
      ensures quoteText == testimonials[index].quote && quoteWho == testimonials[index].who
    {
      var t := testimonials[index];
      quoteText := t.quote;
      quoteWho := t.who;
    }

    /** `nextTestimonial`, also what each tick of the interval runs. */
    method NextTestimonial()
      requires Valid()
      modifies this
      ensures Valid() && timer == old(timer) && live == old(live)
      ensures index == Next(old(index), |testimonials|)
      ensures quoteText == testimonials[index].quote && quoteWho == testimonials[index].who
    {
      index := (index + 1) % |testimonials|;
      Render();
    }

    /** `prevTestimonial` */
    method PrevTestimonial()
      requires Valid()
      modifies this
      ensures Valid() && timer == old(timer) && live == old(live)
      ensures index == Prev(old(index), |testimonials|)
      ensures quoteText == testimonials[index].quote && quoteWho == testimonials[index].who
    {
      index := (index - 1 + |testimonials|) % |testimonials|;
      Render();
    }

    /** `stopAuto`, also the mouse-enter handler: clear the held interval, if any. */
    method StopAuto()
      requires Valid()
      modifies this
      ensures Valid() && timer == None && live == {}
      ensures index == old(index) && quoteText == old(quoteText) && quoteWho == old(quoteWho)
    {
      if timer.Some? {
        live := live - {timer.value};  // clearInterval
      }
      timer := None;
    }

    /**
     * `startAuto`, also the mouse-leave handler: stop first, then hold the
     * fresh interval `h` the host hands out.
     */
    method StartAuto(h: Handle)
      requires Valid()
      modifies this
      ensures Valid() && timer == Some(h) && live == {h}
      ensures index == old(index) && quoteText == old(quoteText) && quoteWho == old(quoteWho)
    {
      StopAuto();
      timer := Some(h);
      live := live + {h};  // setInterval(nextTestimonial, 7000)
    }
  }

  /** Starting twice in a row leaves exactly one interval firing: the second one. */
  method StartTwice(s: Slider, h1: Handle, h2: Handle)
    requires s.Valid()
    modifies s
    ensures s.Valid() && s.live == {h2}
  {
    s.StartAuto(h1);
    s.StartAuto(h2);
  }
}
