// What every component of the model shares: result shapes, machine words, a little arithmetic.
module Wrappers {

  datatype Option<+T> = None | Some(value: T)

  datatype Result<+R, +E> = Ok(value: R) | Err(error: E)

  /** The numbers of values of a 16-bit and of a 32-bit unsigned word. */
  const UINT16 := 0x1_0000
  const WORD := 0x1_0000_0000

  function Min(x: nat, y: nat): nat {
    if x <= y then x else y
  }

  function Max(x: nat, y: nat): nat {
    if x < y then y else x
  }

  lemma MulMonotone(c: nat, x: nat, y: nat)
    requires x <= y
    ensures c * x <= c * y
  {
  }

  /** Division is determined by its remainder. */
  lemma Quotient(y: nat, c: nat, q: nat, r: nat)
    requires y == q * c + r && r < c
    ensures y / c == q && y % c == r
  {
    if y / c < q {
      MulMonotone(c, y / c + 1, q);
    } else if y / c > q {
      MulMonotone(c, q + 1, y / c);
    }
  }

  /** How often c goes into y. */
  function Div(y: nat, c: nat): nat
    requires c > 0
  {
    if y < c then 0 else 1 + Div(y - c, c)
  }

  lemma {:induction false} DivIsQuotient(y: nat, c: nat)
    requires c > 0
    ensures Div(y, c) == y / c
  {
    if y < c {
      Quotient(y, c, 0, y);
    } else {
      DivIsQuotient(y - c, c);
      Quotient(y, c, (y - c) / c + 1, (y - c) % c);
    }
  }

  /** x as an unsigned 32-bit word: what is left of it after whole turns of 2^32. */
  function Word(x: int): (r: nat)
    ensures r < WORD
    decreases x < 0, if x < 0 then -x else x
  {
    if x < 0 then Word(x + WORD) else if x < WORD then x else Word(x - WORD)
  }

  lemma {:induction false} WordIsRemainder(x: int)
    ensures Word(x) == x % WORD
    decreases x < 0, if x < 0 then -x else x
  {
    if x < 0 {
      WordIsRemainder(x + WORD);
    } else if x >= WORD {
      WordIsRemainder(x - WORD);
    }
  }

  lemma RemainderAdd(x: int, y: int)
    ensures (x % WORD + y) % WORD == (x + y) % WORD
  {
  }

  /** A sum in words may be reduced at any point; y may be negative. */
  lemma WordAdd(x: int, y: int)
    ensures Word(Word(x) + y) == Word(x + y)
  {
    WordIsRemainder(x);
    WordIsRemainder(x + y);
    WordIsRemainder(Word(x) + y);
    RemainderAdd(x, y);
  }

  lemma RemainderSub(x: int, y: int)
    ensures (x - y % WORD) % WORD == (x - y) % WORD
  {
  }

  lemma WordSub(x: int, y: int)
    ensures Word(x - Word(y)) == Word(x - y)
  {
    WordIsRemainder(y);
    WordIsRemainder(x - y);
    WordIsRemainder(x - Word(y));
    RemainderSub(x, y);
  }

  /** A whole turn changes nothing. */
  lemma WordTurn(x: int)
    ensures Word(x + WORD) == Word(x)
  {
    WordIsRemainder(x);
    WordIsRemainder(x + WORD);
  }

  lemma SubsetSize<T>(small: set<T>, large: set<T>)
    requires small <= large
    ensures |small| <= |large|
  {
    assert large == small + (large - small);
  }
}
