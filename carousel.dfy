/**
 * The quote carousel (script.js:119-133): `qIndex` starts at 0 and every five seconds
 * moves on by `(qIndex + 1) % quotes.length`, showing that quote's text.
 */
module Carousel {

  datatype Quote = Quote(text: string)

  /** The three quotes the carousel rotates through, in order. */
  const Quotes: seq<Quote> := [
    Quote("The Mabo decision did not hand land back; it handed dignity back. \U{2013} Noel Pearson"),
    Quote("While great strides have been made, the struggle for true land justice continues. \U{2013} AIATSIS Report 2023"),
    Quote("The land still cries for justice. \U{2013} Senator Pat Dodson")
  ]

  /** One rotation step over a list of `n` quotes. */
  function NextIndex(i: nat, n: nat): (r: nat)
    requires n > 0
    ensures r < n
    ensures i + 1 < n ==> r == i + 1
    ensures i + 1 == n ==> r == 0
  {
    (i + 1) % n
  }

  /** The index after `k` rotation steps from the initial 0. */
  function IndexAfter(k: nat, n: nat): (r: nat)
    requires n > 0
    ensures r < n
  {
    if k == 0 then 0 else NextIndex(IndexAfter(k - 1, n), n)
  }

  /** The first `n` steps show the quotes in order, starting with the first one. */
  lemma {:induction false} IndexAfterInOrder(j: nat, n: nat)
    requires j < n
    ensures IndexAfter(j, n) == j
  {
    if j > 0 {
      IndexAfterInOrder(j - 1, n);
    }
  }

  /** After `n` more steps the carousel is back at the same quote. */
  lemma {:induction false} IndexAfterPeriodic(k: nat, n: nat)
    requires n > 0
    ensures IndexAfter(k + n, n) == IndexAfter(k, n)
  {
    if k == 0 {
      IndexAfterInOrder(n - 1, n);
    } else {
      IndexAfterPeriodic(k - 1, n);
      assert k + n - 1 == (k - 1) + n;
    }
  }

  /** Every quote comes round again and again: quote `j` is shown after `j + rounds * n`
      steps, for every number of completed rounds. */
  lemma {:induction false} EveryQuoteShown(j: nat, n: nat, rounds: nat)
    requires j < n
    ensures IndexAfter(j + rounds * n, n) == j
  {
    if rounds == 0 {
      IndexAfterInOrder(j, n);
    } else {
      EveryQuoteShown(j, n, rounds - 1);
      assert j + rounds * n == (j + (rounds - 1) * n) + n;
      IndexAfterPeriodic(j + (rounds - 1) * n, n);
    }
  }

  /** The `#quote-carousel` element and the `qIndex` variable of its interval callback. */
  class QuoteCarousel {
    var index: nat
    var text: string
    ghost var ticks: nat

    ghost predicate Valid()
      reads this
    {
      index == IndexAfter(ticks, |Quotes|) && text == Quotes[index].text
    }

    constructor ()
      ensures Valid() && ticks == 0 && index == 0 && text == Quotes[0].text
    {
      index := 0;
      text := Quotes[0].text;
      ticks := 0;
    }

    /** The body of the five-second interval. */
    method Tick()
      requires Valid()
      modifies this
      ensures Valid() && ticks == old(ticks) + 1
      ensures index == NextIndex(old(index), |Quotes|)
    {
      index := (index + 1) % |Quotes|;
      text := Quotes[index].text;
      ticks := ticks + 1;
    }
  }
}
